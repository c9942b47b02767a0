/** Spells and spell slots (lib/characterParser.ts, `extractSpells` and
    `extractSpellSlots`). Spells are the `items` entries of type `spell`, in
    source order; slots are read from the fixed keys `spell1` to `spell9`. */
module SpellExtraction {
  import opened Results
  import opened JsonValue
  import opened Numerals
  import opened CharacterTypes
  import opened SourceItems
  import Sequences

  /** The `filter` callback of `extractSpells`. */
  predicate IsSpellEntry(item: Json)
  {
    StrictEquals(Get(item, "type"), Str("spell"))
  }

  /** `typeof school === 'string' ? school : school?.value || ''`. */
  function SchoolOf(school: Json): (r: Json)
    ensures school.Str? ==> r == school
    ensures !school.Str? ==> Truthy(r) || r == Str("")
    ensures !school.Str? && Truthy(Get(school, "value")) ==> r == Get(school, "value")
    ensures !school.Str? && !Truthy(Get(school, "value")) ==> r == Str("")
  {
    if school.Str? then school else Or(Get(school, "value"), Str(""))
  }

  /** The record `extractSpells` pushes for one spell entry. */
  function ToSpell(spell: Json): Spell
  {
    var system := Or(Get(spell, "system"), Obj([]));
    var components := Get(system, "components");
    Spell(
      Or(Get(spell, "name"), Str("")),
      Coalesce(Get(system, "level"), Num(0)),
      SchoolOf(Get(system, "school")),
      Coalesce(Get(Get(system, "preparation"), "prepared"), Bool(false)),
      Coalesce(Get(components, "ritual"), Bool(false)),
      Or(Get(Get(system, "description"), "value"), Str("")),
      Components(
        Coalesce(Get(components, "vocal"), Bool(false)),
        Coalesce(Get(components, "somatic"), Bool(false)),
        Coalesce(Get(components, "material"), Bool(false)),
        Or(Get(Get(components, "materials"), "value"), Str(""))),
      Or(Get(Get(system, "range"), "value"), Str("")),
      Or(Get(Get(system, "duration"), "value"), Str("")),
      Or(Get(Get(system, "time"), "value"), Str("")),
      Coalesce(Get(Get(system, "duration"), "concentration"), Bool(false)))
  }

  /** The defaults of a spell record: text fields fall back to `''` with
      `||`; `level` falls back to 0 and the flags to `false` with `??`, so a
      stored 0 or `false` is kept. `school` follows `SchoolOf`, and the verbal
      component is read from `components.vocal`. */
  lemma ToSpellDefaults(spell: Json)
    ensures var r, system := ToSpell(spell), Or(Get(spell, "system"), Obj([]));
      var components := Get(system, "components");
      && IsOr(system, Get(spell, "system"), Obj([]))
      && IsOr(r.name, Get(spell, "name"), Str(""))
      && IsCoalesce(r.level, Get(system, "level"), Num(0))
      && r.school == SchoolOf(Get(system, "school"))
      && IsCoalesce(r.prepared, Get(Get(system, "preparation"), "prepared"), Bool(false))
      && IsCoalesce(r.ritual, Get(components, "ritual"), Bool(false))
      && IsOr(r.description, Get(Get(system, "description"), "value"), Str(""))
      && IsCoalesce(r.components.verbal, Get(components, "vocal"), Bool(false))
      && IsCoalesce(r.components.somatic, Get(components, "somatic"), Bool(false))
      && IsCoalesce(r.components.material, Get(components, "material"), Bool(false))
      && IsOr(r.components.materials, Get(Get(components, "materials"), "value"), Str(""))
      && IsOr(r.range, Get(Get(system, "range"), "value"), Str(""))
      && IsOr(r.duration, Get(Get(system, "duration"), "value"), Str(""))
      && IsOr(r.castingTime, Get(Get(system, "time"), "value"), Str(""))
      && IsCoalesce(r.concentration, Get(Get(system, "duration"), "concentration"), Bool(false))
  {
  }

  /** What `extractSpells` returns: one record per spell entry, in the order
      of `items`; the `TypeError` of the `filter` when `items` is truthy but
      not an array or holds a nullish element. */
  function Spells(raw: Json): (r: Result<seq<Spell>>)
    ensures r.Ok? <==> FilterableItems(raw).Ok?
  {
    var elems :- FilterableItems(raw);
    Ok(Sequences.Map(ToSpell, Sequences.Filter(IsSpellEntry, elems)))
  }

  /** The spell list is the spell entries, converted one by one and kept in
      source order, and there are exactly as many spells as spell entries. */
  lemma SpellsAreSpellEntries(raw: Json)
    requires Spells(raw).Ok?
    ensures var elems := FilterableItems(raw).value;
      var entries := Sequences.Filter(IsSpellEntry, elems);
      && Sequences.IsSubsequence(entries, elems)
      && |Spells(raw).value| == |entries| == |Sequences.Positions(IsSpellEntry, elems)|
      && (forall k :: 0 <= k < |entries| ==> Spells(raw).value[k] == ToSpell(entries[k]) && IsSpellEntry(entries[k]))
  {
    Sequences.FilterMapShape(IsSpellEntry, ToSpell, FilterableItems(raw).value);
  }

  /** `extractSpells`: filter the entries, then push one record per spell. */
  method ExtractSpells(raw: Json) returns (r: Result<seq<Spell>>)
    ensures r == Spells(raw)
  {
    var items := ItemsOrEmpty(raw);
    if !items.Arr? {
      return TypeError;
    }
    var spellItems := FilterEntries(IsSpellEntry, items.elems);
    if spellItems.TypeError? {
      return TypeError;
    }
    var spells := PushEach(ToSpell, spellItems.value);
    return Ok(spells);
  }

  /** `data.system?.spells || {}`. */
  function SlotsField(raw: Json): Json
  {
    Or(Get(Get(raw, "system"), "spells"), Obj([]))
  }

  /** The key `` `spell${i}` ``. */
  function SlotKey(i: nat): string
  {
    "spell" + NatToString(i)
  }

  /** The slot of level `i`, if `extractSpellSlots` emits one. */
  function SlotAt(spells: Json, i: nat): (r: Option<SpellSlot>)
    ensures r.Some? ==> r.value.level == i
  {
    var slot := Get(spells, SlotKey(i));
    if Truthy(slot) && !Get(slot, "value").IsNullish() then
      Some(SpellSlot(i, Get(slot, "value"), Coalesce(Get(slot, "max"), Get(slot, "value"))))
    else None
  }

  /** Level `i` emits a slot exactly when its entry is truthy and its `value`
      is neither `null` nor `undefined`, so a 0 counts; the slot carries that
      value, and `max` falls back to it with `??`. */
  lemma SlotAtRule(spells: Json, i: nat)
    ensures var entry, r := Get(spells, SlotKey(i)), SlotAt(spells, i);
      && (r.Some? <==> Truthy(entry) && !Get(entry, "value").IsNullish())
      && (r.Some? ==> r.value.value == Get(entry, "value") && !r.value.max.IsNullish())
      && (r.Some? && Get(entry, "max").IsNullish() ==> r.value.max == r.value.value)
      && (r.Some? && !Get(entry, "max").IsNullish() ==> r.value.max == Get(entry, "max"))
  {
  }

  /** The slots of levels 1 to `n`, in level order. */
  function SlotsUpTo(spells: Json, n: nat): seq<SpellSlot>
  {
    if n == 0 then []
    else
      SlotsUpTo(spells, n - 1) + (match SlotAt(spells, n) case Some(slot) => [slot] case None => [])
  }

  /** What `extractSpellSlots` returns. */
  function SpellSlots(raw: Json): (slots: seq<SpellSlot>)
    ensures forall k :: 0 <= k < |slots| ==> 1 <= slots[k].level <= 9
    ensures forall j, k :: 0 <= j < k < |slots| ==> slots[j].level < slots[k].level
  {
    SlotsUpToLevels(SlotsField(raw), 9);
    SlotsUpTo(SlotsField(raw), 9)
  }

  /** Distinct levels read distinct keys. */
  lemma SlotKeyInjective(i: nat, j: nat)
    requires SlotKey(i) == SlotKey(j)
    ensures i == j
  {
    assert NatToString(i) == SlotKey(i)[5..] == SlotKey(j)[5..] == NatToString(j);
    NatToStringInjective(i, j);
  }

  /** The emitted levels lie in 1..`n` and strictly ascend, so no level
      appears twice. */
  lemma {:induction false} SlotsUpToLevels(spells: Json, n: nat)
    ensures forall k :: 0 <= k < |SlotsUpTo(spells, n)| ==> 1 <= SlotsUpTo(spells, n)[k].level <= n
    ensures forall j, k :: 0 <= j < k < |SlotsUpTo(spells, n)| ==>
      SlotsUpTo(spells, n)[j].level < SlotsUpTo(spells, n)[k].level
  {
    if n > 0 {
      SlotsUpToLevels(spells, n - 1);
      var init := SlotsUpTo(spells, n - 1);
      var slots := SlotsUpTo(spells, n);
      assert forall k :: 0 <= k < |init| ==> slots[k] == init[k];
      if SlotAt(spells, n).Some? {
        assert slots == init + [SlotAt(spells, n).value];
        assert slots[|slots| - 1].level == n;
      } else {
        assert slots == init;
      }
    }
  }

  /** A slot is emitted exactly for each level up to `n` whose entry
      qualifies, and it is that entry's slot. */
  lemma {:induction false} SlotsUpToMembers(spells: Json, n: nat)
    ensures forall s :: s in SlotsUpTo(spells, n) <==> 1 <= s.level <= n && SlotAt(spells, s.level) == Some(s)
  {
    if n > 0 {
      SlotsUpToMembers(spells, n - 1);
      var init := SlotsUpTo(spells, n - 1);
      assert SlotsUpTo(spells, n) == init + (match SlotAt(spells, n) case Some(slot) => [slot] case None => []);
    }
  }

  /** Level `i` is in the spell-slot list exactly when `spell{i}` qualifies
      (see `SlotAt`), and then with the slot built from that entry. */
  lemma SpellSlotPresent(raw: Json, i: nat)
    requires 1 <= i <= 9
    ensures (exists k :: 0 <= k < |SpellSlots(raw)| && SpellSlots(raw)[k].level == i) <==>
      SlotAt(SlotsField(raw), i).Some?
    ensures SlotAt(SlotsField(raw), i).Some? ==> SlotAt(SlotsField(raw), i).value in SpellSlots(raw)
  {
    var slots := SpellSlots(raw);
    SlotsUpToMembers(SlotsField(raw), 9);
    if exists k :: 0 <= k < |slots| && slots[k].level == i {
      var k :| 0 <= k < |slots| && slots[k].level == i;
      assert slots[k] in slots;
    }
  }

  /** Levels above `m` that emit nothing leave the list as it was at `m`. */
  lemma {:induction false} NoSlotsAbove(spells: Json, m: nat, n: nat)
    requires m <= n
    requires forall i: nat :: m < i <= n ==> SlotAt(spells, i).None?
    ensures SlotsUpTo(spells, n) == SlotsUpTo(spells, m)
  {
    if m < n {
      NoSlotsAbove(spells, m, n - 1);
    }
  }

  /** A slot with no charges left (`value` 0) is still listed, with `max`
      taken from the document. */
  lemma EmptySlotKept(raw: Json)
    requires SlotsField(raw) == Obj([("spell1", Obj([("value", Num(0)), ("max", Num(2))]))])
    ensures SpellSlots(raw) == [SpellSlot(1, Num(0), Num(2))]
  {
    var spells := SlotsField(raw);
    assert SlotKey(1) == "spell1";
    forall i: nat | 1 < i <= 9
      ensures SlotAt(spells, i).None?
    {
      if SlotKey(i) == "spell1" {
        SlotKeyInjective(i, 1);
      }
    }
    NoSlotsAbove(spells, 1, 9);
    assert SlotsUpTo(spells, 1) == [SpellSlot(1, Num(0), Num(2))];
  }

  /** `extractSpellSlots`: the `for i = 1..9` loop that pushes each
      qualifying slot. */
  method ExtractSpellSlots(raw: Json) returns (slots: seq<SpellSlot>)
    ensures slots == SpellSlots(raw)
  {
    var spells := SlotsField(raw);
    slots := [];
    for i := 1 to 10
      invariant slots == SlotsUpTo(spells, i - 1)
    {
      var spellSlot := Get(spells, SlotKey(i));
      if Truthy(spellSlot) && !Get(spellSlot, "value").IsNullish() {
        slots := slots + [SpellSlot(i, Get(spellSlot, "value"), Coalesce(Get(spellSlot, "max"), Get(spellSlot, "value")))];
      }
    }
  }
}
