/** The view model of the spells tab (app/components/SpellsTab.tsx): the
    filtered list, its grouping by level, the ascending order of the levels
    and each level's heading. Spells carry the field types the record
    declares, with whole-number levels. */
module SpellsTab {
  import opened Numerals
  import opened Sequences
  import opened Sorting
  import Grouping
  import TreeView

  /** A spell as the tab reads it: `prepared` is an optional boolean, whose
      absence reads as false. */
  datatype TabSpell = TabSpell(name: string, level: int, prepared: bool)

  /** The level filter: a level number or 'all'. */
  datatype LevelFilter = AnyLevel | OnlyLevel(level: int)

  /** The prepared filter: 'all' | 'prepared' | 'unprepared'. */
  datatype PreparedFilter = AnyPrepared | PreparedOnly | UnpreparedOnly

  /** The list callback: each filter drops the spells it excludes. */
  predicate Listed(filterLevel: LevelFilter, filterPrepared: PreparedFilter, spell: TabSpell)
  {
    if filterLevel.OnlyLevel? && spell.level != filterLevel.level then false
    else if filterPrepared == PreparedOnly && !spell.prepared then false
    else if filterPrepared == UnpreparedOnly && spell.prepared then false
    else true
  }

  function FilteredSpells(spells: seq<TabSpell>, filterLevel: LevelFilter, filterPrepared: PreparedFilter): seq<TabSpell>
  {
    Filter(spell => Listed(filterLevel, filterPrepared, spell), spells)
  }

  /** The filtered list keeps the input's order and holds exactly the spells
      of the chosen level and prepared state. */
  lemma FilteredSpellsExactly(spells: seq<TabSpell>, filterLevel: LevelFilter, filterPrepared: PreparedFilter)
    ensures IsSubsequence(FilteredSpells(spells, filterLevel, filterPrepared), spells)
    ensures forall spell :: spell in FilteredSpells(spells, filterLevel, filterPrepared) <==>
      && spell in spells
      && (filterLevel.OnlyLevel? ==> spell.level == filterLevel.level)
      && (filterPrepared == PreparedOnly ==> spell.prepared)
      && (filterPrepared == UnpreparedOnly ==> !spell.prepared)
  {
    FilterIsSubsequence(spell => Listed(filterLevel, filterPrepared, spell), spells);
  }

  function SpellLevel(spell: TabSpell): int
  {
    spell.level
  }

  /** `spellsByLevel`: the filtered spells grouped by level. Every spell is
      in the group of its level and in no other, no group is empty, each
      group keeps the list's order, and the groups together hold every
      filtered spell once. */
  method SpellsByLevel(filtered: seq<TabSpell>) returns (groups: map<int, seq<TabSpell>>, order: seq<int>)
    ensures forall l :: l in groups <==> l in order
    ensures forall i, j :: 0 <= i < j < |order| ==> order[i] != order[j]
    ensures forall spell, l :: spell in filtered && l in groups ==> (spell in groups[l] <==> l == spell.level)
    ensures forall spell :: spell in filtered ==> spell.level in groups
    ensures forall l :: l in groups ==> groups[l] != [] && IsSubsequence(groups[l], filtered)
    ensures forall l, spell :: l in groups && spell in groups[l] ==> spell in filtered
    ensures order == Keys(SpellLevel, filtered)
    ensures forall l :: l in groups ==> groups[l] == Bucket(SpellLevel, filtered, l)
    ensures Grouping.TotalSize(groups, order) == |filtered|
  {
    groups, order := Grouping.GroupBy(SpellLevel, filtered);
    Grouping.GroupsPartition(SpellLevel, filtered, groups, order);
  }

  /** `toggleLevel`: a copy of the expanded set with the level removed if
      present and added otherwise. */
  method ToggleLevel(expanded: set<int>, level: int) returns (newExpanded: set<int>)
    ensures newExpanded == TreeView.Toggled(expanded, level)
  {
    newExpanded := expanded;
    if level in newExpanded {
      newExpanded := newExpanded - {level};
    } else {
      newExpanded := newExpanded + {level};
    }
  }

  /** The comparator `parseInt(a) - parseInt(b)`, a negative result meaning
      `a` comes first. */
  predicate LevelBefore(a: int, b: int)
  {
    a - b <= 0
  }

  /** The levels in the order the tab lists them. */
  function SortedLevels(order: seq<int>): seq<int>
  {
    Sort(LevelBefore, order)
  }

  /** The listed levels are the group keys rearranged, and since each key
      appears once they are strictly ascending. */
  lemma SortedLevelsAscending(order: seq<int>)
    requires forall i, j :: 0 <= i < j < |order| ==> order[i] != order[j]
    ensures multiset(SortedLevels(order)) == multiset(order)
    ensures forall i, j :: 0 <= i < j < |SortedLevels(order)| ==> SortedLevels(order)[i] < SortedLevels(order)[j]
  {
    var sorted := SortedLevels(order);
    SortSorted(LevelBefore, order);
    DistinctPermutation(order, sorted);
  }

  /** A rearrangement of a list without repeats has no repeats. */
  lemma DistinctPermutation(s: seq<int>, t: seq<int>)
    requires forall i, j :: 0 <= i < j < |s| ==> s[i] != s[j]
    requires multiset(t) == multiset(s)
    ensures forall i, j :: 0 <= i < j < |t| ==> t[i] != t[j]
  {
    AtMostOnce(s);
    forall i, j | 0 <= i < j < |t|
      ensures t[i] != t[j]
    {
      RepeatCountsTwice(t, i, j);
    }
  }

  /** In a list without repeats every value occurs at most once. */
  lemma {:induction false} AtMostOnce(s: seq<int>)
    requires forall i, j :: 0 <= i < j < |s| ==> s[i] != s[j]
    ensures forall x :: multiset(s)[x] <= 1
  {
    if s != [] {
      var init := s[..|s| - 1];
      AtMostOnce(init);
      assert s == init + [s[|s| - 1]];
      assert s[|s| - 1] !in init;
    }
  }

  lemma RepeatCountsTwice(t: seq<int>, i: nat, j: nat)
    requires i < j < |t|
    ensures t[i] == t[j] ==> multiset(t)[t[i]] >= 2
  {
    assert t == t[..j] + [t[j]] + t[j + 1..];
    assert t[i] in multiset(t[..j]);
  }

  /** `getSpellId(level, index)`: ids of different spells never collide,
      negative levels included. */
  lemma SpellIdInjective(level1: int, index1: nat, level2: int, index2: nat)
    requires TreeView.EntryId(IntToString(level1), index1) == TreeView.EntryId(IntToString(level2), index2)
    ensures level1 == level2 && index1 == index2
  {
    TreeView.EntryIdInjective(IntToString(level1), index1, IntToString(level2), index2);
    IntToStringInjective(level1, level2);
  }

  /** The heading of a level's group: 'Cantrip' for level 0, else
      `Level ${level}`. */
  function LevelLabel(level: int): (heading: string)
    ensures heading == "Cantrip" <==> level == 0
  {
    if level == 0 then "Cantrip"
    else
      var heading := "Level " + IntToString(level);
      assert heading[0] != "Cantrip"[0];
      heading
  }

  /** Different levels get different headings. */
  lemma LevelLabelInjective(a: int, b: int)
    requires LevelLabel(a) == LevelLabel(b)
    ensures a == b
  {
    if a != 0 && b != 0 {
      var la, lb := "Level " + IntToString(a), "Level " + IntToString(b);
      assert IntToString(a) == la[6..] == lb[6..] == IntToString(b);
      IntToStringInjective(a, b);
    }
  }
}
