# Foundry VTT character normaliser: a Dafny model

This project models the character-sheet viewer's normalisation layer. `parseCharacterData` turns an untyped Foundry VTT actor export into the viewer's character record. Each field has an extractor with defaults:

- the level comes from experience-point thresholds;
- race, class and background are resolved through the item list;
- ability scores get their modifiers, and skills get their totals;
- spells, spell slots, items, containers and features are filtered out of the flat item list;
- the proficiency lists are read, including the saving throws.

The project also models the logic the items and spells tabs run before they render:

- the filters, and the grouping by container or level;
- container-name resolution;
- the type-filter choices;
- the order the groups are listed in;
- the expand/collapse toggle;
- the per-entry ids.

## How the document is modelled

The export is a `JsonValue.Json` value: undefined, null, a boolean, a number, a string, an array, or an object given as its list of entries. The JavaScript operations the extractors rely on are written out:

- property reads through optional chaining (`Get`; the last duplicate key wins);
- truthiness, `||` and `??`;
- `===`;
- `Object.keys`;
- `Number(...)` and `parseInt`.

The parser can throw a `TypeError`. This happens when the document is nullish, when it reads a property of a nullish element of `items`, when it calls an array method on a truthy non-array `items`, or when the saving-throw filter reads an ability entry that is nullish. This is modelled as `Results.Result`, not as a precondition.

Each extractor that loops is a `method` proved equal to a specification function. The properties are stated about those functions. The tabs work on items, containers and spells with the field types the record declares.

In these places the code does less than a reader might expect, and the model follows the code:

- A skill flagged 2 (expertise) gets the proficiency bonus once, not twice, despite the comment "Expertise doubles proficiency" at lib/characterParser.ts:202. `proficient` and `expertise` are exclusive tests on the same flag (`Abilities.ExpertiseAddsBonusOnce`).
- The parsed check bonus is stored in `bonus` but not added to the skill total.
- `extractItems` keeps container entries as items. Only spell, race, class, background and feat entries are skipped. The items tab is what hides containers.
- `containerId` is `system.container || null`, so an empty string becomes null.

## Model

| member | source | states |
|---|---|---|
| CharacterParser.Parse | lib/characterParser.ts:6-54 | A successful parse holds every extractor's result: the name, alignment, HP, AC and speed extractors' values; the race, class and background, spells, items, containers, features and proficiencies their extractors return; the ability scores, skills and slots of the same document; a level in 1..20 from the XP table; empty traits and tools |
| CharacterParser.ParseFailsExactly | lib/characterParser.ts:6-54 | The parse throws exactly when the document is nullish, `items` is truthy but not scannable (not an array, or has a nullish element), or the saving-throw filter meets a nullish ability entry |
| CharacterParser.UnscannableFails | lib/characterParser.ts:14-35 | Truthy `items` that is not an array or holds a nullish element makes the parse throw, whichever extractor meets it first |
| CharacterParser.ScannableFailsOnSaves | lib/characterParser.ts:14-50 | With scannable `items`, the parse throws exactly when the saving-throw filter does |
| CharacterParser.FindWithoutNullish | lib/characterParser.ts:89 | A `find` over elements that are all non-nullish never throws |
| CharacterParser.ParseCharacterData | lib/characterParser.ts:6-54 | Assigning each field in turn, stopping at the first throwing extractor, gives exactly `Parse` |
| CharacterParser.AriaExample | lib/characterParser.ts:6-54 | A document with name Aria, 900 XP and a proficient strength of 14 parses to level 3, strength 14 with modifier +2, empty item/spell/container/feature lists and saving throws ["STR"] |
| CharacterParser.AriaSavingThrows | lib/characterParser.ts:310-312 | For that document the saving throws are exactly ["STR"] |
| CharacterParser.AriaScans | lib/characterParser.ts:60-113 | For that document the level is 3, the descriptors are empty strings and every item-list extractor returns an empty list |
| CharacterParser.AriaName | lib/characterParser.ts:56-58 | For that document the name is "Aria" |
| CharacterParser.UpperStr | lib/characterParser.ts:312 | `"str".toUpperCase()` is "STR" |
| Descriptors.ExtractName | lib/characterParser.ts:56-58 | A truthy `name` is kept; a falsy one gives the empty string |
| Descriptors.ExtractAlignment | lib/characterParser.ts:115-117 | A truthy `system.details.alignment` is kept; a falsy one gives the empty string |
| Descriptors.Find | lib/characterParser.ts:89 | `items.find` returns the first matching element, with no nullish or matching element before it; it returns nothing exactly when no element stops the scan; it throws only at a nullish element reached before any match |
| Descriptors.ExtractDescriptor | lib/characterParser.ts:85-113 | A falsy ID or falsy `items` gives ""; a result is truthy or ""; a throw needs truthy `items` that is a non-array or holds a nullish element |
| Descriptors.DescriptorIsFirstMatch | lib/characterParser.ts:85-113 | When element i is the first that matches by `_id` or by type, the descriptor is that element's `name || ''` |
| Descriptors.DescriptorWithoutMatch | lib/characterParser.ts:85-113 | When no element matches, the descriptor is "" |
| Descriptors.ExtractRace | lib/characterParser.ts:85-93 | A falsy `system.details.race` or falsy `items` gives ""; otherwise the result, when there is one, is a truthy name or "" (the lookup matches by `_id` or by type "race") |
| Descriptors.ExtractClass | lib/characterParser.ts:95-103 | A falsy `system.details.originalClass` or falsy `items` gives ""; otherwise the result, when there is one, is a truthy name or "" (the lookup matches by `_id` or by type "class") |
| Descriptors.ExtractBackground | lib/characterParser.ts:105-113 | A falsy `system.details.background` or falsy `items` gives ""; otherwise the result, when there is one, is a truthy name or "" (the lookup matches by `_id` or by type "background") |
| Descriptors.ExtractHP | lib/characterParser.ts:119-129 | No HP exactly when `hp` is falsy; otherwise `value ?? 0`, `max ?? value ?? 0` and `temp ?? 0`, each case stated both ways (a present field is kept, a nullish one gets its default) |
| Descriptors.ExtractAC | lib/characterParser.ts:131-133 | Never null; a non-nullish `ac.flat` is returned unchanged, a nullish one gives undefined |
| Descriptors.ExtractSpeed | lib/characterParser.ts:135-137 | Never null; a non-nullish `movement.walk` is returned unchanged, a nullish one gives undefined |
| Level.LevelForXp | lib/characterParser.ts:60-83 | The level is in 1..20, its threshold is at most the XP, and the next threshold is above it |
| Level.ThresholdsAscending | lib/characterParser.ts:63-81 | The XP thresholds strictly increase |
| Level.LevelMonotone | lib/characterParser.ts:60-83 | More XP never gives a lower level |
| Level.LevelAtThreshold | lib/characterParser.ts:60-83 | Exactly reaching a threshold gives the next level; one point less does not |
| Level.ExtractLevel | lib/characterParser.ts:60-83 | The level is in 1..20; a falsy XP value gives 1; a numeric XP gives its table level |
| Level.ProficiencyBonus | lib/characterParser.ts:196 | `floor((level-1)/4)+2` is in 2..6 and bounds the level between 4(pb-2)+1 and 4(pb-1) |
| Abilities.CalculateModifier | lib/characterParser.ts:358-360 | NaN exactly when the score is not a number; otherwise `floor((score-10)/2)`, stated as 2·mod ≤ score-10 < 2·mod+2 |
| Abilities.ModifierExamples | lib/characterParser.ts:358-360 | Scores 10, 9, 1 and 20 give modifiers 0, -1, -5 and 5 |
| Abilities.ScoreOf | lib/characterParser.ts:150-156 | The value is `value ?? 10`, the modifier is computed from that value, and proficient means exactly `proficient === 1` |
| Abilities.AbilityScores | lib/characterParser.ts:139-160 | Undefined exactly when `abilities` is falsy or none of the six keys is truthy; otherwise exactly the truthy keys, each with its score |
| Abilities.ExtractAbilityScores | lib/characterParser.ts:139-160 | The `forEach` fill equals `AbilityScores` |
| Abilities.SingleAbilityExample | lib/characterParser.ts:139-160 | A lone strength of 14 flagged 1 gives {str: 14, +2, proficient} |
| Abilities.SkillOf | lib/characterParser.ts:192-210 | The ability is `skillData.ability \|\| ''`; proficient means exactly flag 1, expertise exactly flag 2, never both; the total is the ability modifier (0 when absent) plus one proficiency bonus when flagged 1 or 2; the check bonus is parsed but kept apart |
| Abilities.ExpertiseAddsBonusOnce | lib/characterParser.ts:196-202 | An expertise skill totals the same as a proficient one with the same ability |
| Abilities.SkillTotalExample | lib/characterParser.ts:192-202 | Dex modifier +3 at level 1 gives a total of 5, whether flagged proficient or expertise |
| Abilities.SkillsForStep | lib/characterParser.ts:191-212 | One `forEach` step adds the key's skill exactly when its entry is truthy |
| Abilities.Skills | lib/characterParser.ts:162-215 | Undefined exactly when `skills` is falsy or no skill key is truthy; otherwise exactly the truthy keys, each built with the document's scores and level |
| Abilities.ExtractSkills | lib/characterParser.ts:162-215 | The `forEach` fill with `+=` totals equals `Skills` |
| Abilities.BuildSkill | lib/characterParser.ts:192-210 | The statement sequence for one skill builds `SkillOf` |
| Abilities.SavesAmong | lib/characterParser.ts:310-312 | The filter throws exactly when a listed key's entry is nullish; otherwise it keeps exactly the upper-cased keys flagged 1 |
| Abilities.SavingThrowListed | lib/characterParser.ts:310-312 | A key of `system.abilities` whose entry is flagged 1 appears upper-cased among the saving throws |
| Abilities.SavingThrows | lib/characterParser.ts:310-312 | A falsy `system.abilities` gives []; otherwise the filter throws exactly when a key's entry is nullish, and keeps exactly the upper-cased keys flagged 1 |
| Abilities.TraitsField | lib/characterParser.ts:303 | `system.traits \|\| {}`: the truthy traits object, else the empty object |
| Abilities.ExtractProficiencies | lib/characterParser.ts:302-314 | Throws exactly when the saving-throw filter does; armor, weapons and languages are the truthy `armorProf.value`, `weaponProf.value` and `languages.value` of `system.traits \|\| {}`, else []; tools are always empty; saving throws are the filter's result |
| SpellExtraction.SchoolOf | lib/characterParser.ts:233 | A string school is kept; otherwise the truthy `school.value`, and a falsy one gives "" |
| SpellExtraction.ToSpellDefaults | lib/characterParser.ts:224-246 | Each `\|\|` field (name, description, materials, range, duration, casting time) is the source value when truthy, else its default; level is `level ?? 0`; prepared, ritual, verbal (from `vocal`), somatic, material and concentration are `?? false`; the school follows `SchoolOf` |
| SpellExtraction.Spells | lib/characterParser.ts:217-249 | The spells extractor succeeds exactly when `items` can be filtered |
| SpellExtraction.SpellsAreSpellEntries | lib/characterParser.ts:217-249 | The spells are the converted spell entries, in source order, one per spell entry |
| SpellExtraction.ExtractSpells | lib/characterParser.ts:217-249 | The filter and the `forEach` push equal `Spells` |
| SpellExtraction.SlotAt | lib/characterParser.ts:258-265 | A slot read for level i has level i |
| SpellExtraction.SlotAtRule | lib/characterParser.ts:258-265 | Level i has a slot exactly when `spell<i>` is truthy with a non-nullish value; `max` falls back to the value |
| SpellExtraction.SpellSlots | lib/characterParser.ts:251-269 | Slot levels are in 1..9 and strictly ascending |
| SpellExtraction.SlotKeyInjective | lib/characterParser.ts:258 | Distinct levels read distinct `spell<i>` keys |
| SpellExtraction.SlotsUpToLevels | lib/characterParser.ts:257-266 | After i iterations the slots have levels in 1..i, strictly ascending |
| SpellExtraction.SlotsUpToMembers | lib/characterParser.ts:257-266 | After n iterations a slot is listed exactly when its level is in 1..n and that level's read gives it |
| SpellExtraction.SpellSlotPresent | lib/characterParser.ts:251-269 | A level in 1..9 has a slot in the result exactly when its read gives one, and that slot is listed |
| SpellExtraction.NoSlotsAbove | lib/characterParser.ts:257-266 | Iterations whose levels have no slot leave the list unchanged |
| SpellExtraction.EmptySlotKept | lib/characterParser.ts:259-264 | A level-1 slot with value 0 and max 2 is kept: a zero value is not dropped |
| SpellExtraction.ExtractSpellSlots | lib/characterParser.ts:251-269 | The `for` loop from 1 to 9 equals `SpellSlots` |
| ItemExtraction.ToItemDefaults | lib/characterParser.ts:282-294 | Each `\|\|` field (name, type, description, rarity, properties, container) is the source value when truthy, else its default (the container's is null); quantity is `quantity ?? 1` and equipped `equipped ?? false`; weight is `weight.value`; attunement is "required" or `attuned === true` |
| ItemExtraction.Items | lib/characterParser.ts:271-300 | A non-array `items` gives no items |
| ItemExtraction.ItemsAreInventoryEntries | lib/characterParser.ts:271-300 | The items are the converted inventory entries, in source order, one per entry |
| ItemExtraction.ExtractItems | lib/characterParser.ts:271-300 | The guarded `forEach` push equals `Items` |
| ItemExtraction.ToContainer | lib/characterParser.ts:346-351 | The id is `_id`; the name is the truthy `name`, else "Unnamed Container" |
| ItemExtraction.Containers | lib/characterParser.ts:339-356 | A non-array `items` gives no containers; the scan throws exactly when the item scan throws |
| ItemExtraction.ContainersAreContainerEntries | lib/characterParser.ts:339-356 | The containers are the converted container entries, in source order, each with a truthy id |
| ItemExtraction.ContainerIsInventoryEntry | lib/characterParser.ts:279-281 | A container entry is also kept as an item, with type "container" |
| ItemExtraction.ExtractContainers | lib/characterParser.ts:339-356 | The guarded `forEach` push equals `Containers` |
| ItemExtraction.ToFeatureDefaults | lib/characterParser.ts:322-328 | The name is the truthy `name`, else ""; the description is the truthy `description.value`, else "" |
| ItemExtraction.Features | lib/characterParser.ts:316-331 | The features extractor succeeds exactly when `items` can be filtered |
| ItemExtraction.FeaturesAreFeatEntries | lib/characterParser.ts:316-331 | The features are the converted feat entries, in source order, one per entry |
| ItemExtraction.ExtractFeatures | lib/characterParser.ts:316-331 | The filter and the push loop equal `Features` |
| ItemExtraction.Traits | lib/characterParser.ts:333-337 | The traits list is always empty |
| SourceItems.FilterableItems | lib/characterParser.ts:221-222 | `(items \|\| []).filter` succeeds exactly on an array without nullish elements, and a falsy `items` gives [] |
| SourceItems.GuardedItems | lib/characterParser.ts:273-276 | Behind `Array.isArray`, a non-array gives nothing to scan |
| SourceItems.NoNullAt | lib/characterParser.ts:279-280 | The recursive no-null predicate holds exactly when no element is null |
| SourceItems.FilterEntries | lib/characterParser.ts:222 | `filter` with a callback that reads `type` throws exactly when an element is nullish, and otherwise returns the kept elements in order (used at lines 222 and 320) |
| SourceItems.PushEach | lib/characterParser.ts:224-246 | The `forEach` push converts every entry, in order, one record each (also lines 322-328) |
| SourceItems.ObjectScan | lib/characterParser.ts:271-300 | A `typeof item === 'object'` scan throws exactly when some element is `null`; otherwise one record per kept element (also lines 339-356) |
| SourceItems.ScanObjects | lib/characterParser.ts:277-297 | The `forEach` loop returns exactly `ObjectScan`, throwing at the first `null` (also lines 345-353) |
| SourceItems.PushedIsMapFilter | lib/characterParser.ts:277-297 | What the loop has pushed after `n` elements is the kept prefix, converted |
| JsonValue.LookupLastWins | lib/characterParser.ts:56-58 | A property read gives the value of the last entry with that key |
| JsonValue.ObjectKeys | lib/characterParser.ts:310 | `Object.keys` of an object lists exactly its keys; of an array, one key per element |
| Numerals.ParseIntOfIntToString | app/components/SpellsTab.tsx:83 | `parseInt` of a level's key string gives the level back |
| Numerals.IntToStringInjective | app/components/SpellsTab.tsx:85 | Distinct levels print differently |
| ItemsTab.FilteredItemsExactly | app/components/ItemsTab.tsx:19-25 | The listed items keep the input's order and are exactly the non-container items of the chosen type and equipped state |
| ItemsTab.ItemsByContainer | app/components/ItemsTab.tsx:28-33 | The group keys are the container keys (missing, null or "" is "no-container") in first-occurrence order, and each group is exactly the filtered items with that key, in order; groups are non-empty and their sizes add up to the list length |
| ItemsTab.ToggleContainer | app/components/ItemsTab.tsx:41-49 | The new set is the old one with that container flipped |
| ItemsTab.ContainerNames | app/components/ItemsTab.tsx:16 | The id-to-name map has exactly the ids of the containers |
| ItemsTab.ContainerNamesLastWins | app/components/ItemsTab.tsx:16 | For a repeated id the later container's name wins |
| ItemsTab.DanglingContainerName | app/components/ItemsTab.tsx:53-56 | An id no container has is labelled "Unknown Container" |
| ItemsTab.ContainerNameOfLast | app/components/ItemsTab.tsx:53-56 | An id whose last container has a non-empty name shows that name |
| ItemsTab.ContainerName | app/components/ItemsTab.tsx:53-56 | "no-container" shows "No Container"; the label is never empty; it is "Unknown Container" exactly when the id is missing from the map or maps to "" (or to that label itself); otherwise it is the mapped name |
| ItemsTab.EmptyNameIsUnknown | app/components/ItemsTab.tsx:53-56 | An id whose last container has an empty name is labelled "Unknown Container", like a missing one |
| ItemsTab.ItemTypesExactly | app/components/ItemsTab.tsx:58 | The type choices are exactly the types of non-container items, each once, and never "container" |
| ItemsTab.ContainerBeforeIsPreorder | app/components/ItemsTab.tsx:61-67 | The container comparator is total and transitive |
| ItemsTab.SortedContainerIdsOrder | app/components/ItemsTab.tsx:61-67 | The sorted ids are a permutation of the group keys; "no-container" comes first when present; the others ascend by name |
| SpellsTab.FilteredSpellsExactly | app/components/SpellsTab.tsx:13-18 | The listed spells keep the input's order and are exactly those of the chosen level and prepared state |
| SpellsTab.SpellsByLevel | app/components/SpellsTab.tsx:20-24 | The group keys are the spell levels in first-occurrence order, and each group is exactly the filtered spells of that level, in order; groups are non-empty and their sizes add up to the list length |
| SpellsTab.ToggleLevel | app/components/SpellsTab.tsx:32-40 | The new set is the old one with that level flipped |
| SpellsTab.SortedLevelsAscending | app/components/SpellsTab.tsx:80-81 | The listed levels are a permutation of the group keys, strictly ascending |
| SpellsTab.SpellIdInjective | app/components/SpellsTab.tsx:42 | Two spells in different places never share a `${level}-${index}` id |
| SpellsTab.LevelLabel | app/components/SpellsTab.tsx:85 | The heading is "Cantrip" exactly for level 0 |
| SpellsTab.LevelLabelInjective | app/components/SpellsTab.tsx:85 | Different levels get different headings |
| TreeView.Toggled | app/components/ItemsTab.tsx:41-49 | Toggling flips the one group and leaves every other unchanged |
| TreeView.ToggledTwice | app/components/SpellsTab.tsx:32-40 | Toggling a group twice restores the expanded set |
| TreeView.AllExpanded | app/components/ItemsTab.tsx:36-39 | The default expanded set holds exactly the group keys |
| TreeView.EntryIdInjective | app/components/ItemsTab.tsx:51 | `${containerId}-${index}` ids never collide, even for ids containing dashes and digits |
| Grouping.GroupBy | app/components/ItemsTab.tsx:28-33 | The `reduce` builds, for each key in first-occurrence order, the bucket of elements with that key |
| Grouping.GroupingPartitions | app/components/SpellsTab.tsx:20-24 | Buckets partition the list, are non-empty, keep its order and add up to its length |
| Grouping.GroupsPartition | app/components/ItemsTab.tsx:28-33 | The object the `reduce` returns has distinct keys, puts each element in exactly its key's bucket, has no empty bucket, keeps the list's order in each, and its bucket sizes add up to the list length |
| Grouping.TotalSizeOfBuckets | app/components/ItemsTab.tsx:28-33 | Summing the sizes of the stored buckets over a key list equals summing the sizes of the specification buckets for those keys |
| Sorting.SortSorted | app/components/ItemsTab.tsx:61 | Sorting with a total, transitive comparator yields a sorted permutation |

## Left out

- Numbers are integers. Fractions, NaN (other than as a failed conversion), infinities and floating-point rounding are not modelled. Weight is carried through unchanged.
- `Number(...)` and `parseInt` handle decimal digits with an optional sign. Whitespace, hexadecimal, exponents, trailing garbage after `Number` digits, and the conversion of arrays and objects to numbers are not modelled. The latter are treated as NaN.
- `Object.keys` lists an object's own keys in entry order. JavaScript's rule that integer-like keys come first, in ascending order, is not modelled. Prototype properties such as `length` on arrays or strings are not modelled either.
- `toUpperCase` maps only ASCII letters.
- `localeCompare` is replaced by code-unit order. Locale-specific collation is outside the model.
- The `...rawData` spread that copies every untouched top-level property into the record is not modelled. The record holds only the extracted fields.
- React state, `useEffect` scheduling, setters, rendering and the selected-entry state are not modelled. The toggles and the default expanded set are modelled as the values handed to the setters.
- The tabs are modelled over the field types the record declares, not over the parser's raw JSON values. `equipped` and `prepared` are booleans whose absence reads as false.
- Abilities.AbilityModFor: a skill's `ability` is matched against the scores only when it is a string. Other property keys, which JavaScript would convert to strings, are not matched.
- ItemsTab.ItemsByContainer: the `reduce` accumulates into a plain object `{}`, and its inherited property names are not modelled. In JavaScript a `containerId` such as `constructor`, `toString` or `__proto__` finds an inherited non-array value, so `push` throws a TypeError. The model instead gives that id an ordinary group.
- SpellsTab.SortedLevels: the group object's keys are modelled as the integer levels themselves. The round trip through their decimal strings is stated separately, by `Numerals.ParseIntOfIntToString`.
- Sorting.Sort: insertion sort stands in for `Array.prototype.sort`. Only its result is modelled: a sorted permutation. Stability is not stated.
- The character viewer, inventory and character pages, storage, and the stats tab are not part of this model.
