/** What the two collapsible trees (items by container, spells by level)
    share: the set of expanded groups, the toggle that flips one group, and
    the `${group}-${index}` id that selects one entry. */
module TreeView {
  import opened Numerals

  /** The expanded set after toggling `g`: `g` flips, every other group keeps
      its state. */
  function Toggled<G(!new)>(expanded: set<G>, g: G): (r: set<G>)
    ensures g in r <==> g !in expanded
    ensures forall h :: h != g ==> (h in r <==> h in expanded)
  {
    if g in expanded then expanded - {g} else expanded + {g}
  }

  /** Toggling the same group twice restores the expanded set. */
  lemma ToggledTwice<G(!new)>(expanded: set<G>, g: G)
    ensures Toggled(Toggled(expanded, g), g) == expanded
  {
  }

  /** The set every group starts in: the effect expands every key of the
      grouping object. */
  function AllExpanded<G(!new)>(order: seq<G>): (r: set<G>)
    ensures forall g :: g in r <==> g in order
  {
    set g | g in order
  }

  /** `${group}-${index}`, the id of the entry at `index` in a group. */
  function EntryId(group: string, index: nat): string
  {
    group + "-" + NatToString(index)
  }

  /** Ids never collide: the index is the digits after the last dash, and
      the group is what precedes that dash, even when the group itself
      contains dashes and digits. */
  lemma {:induction false} EntryIdInjective(g1: string, i1: nat, g2: string, i2: nat)
    requires EntryId(g1, i1) == EntryId(g2, i2)
    ensures g1 == g2 && i1 == i2
  {
    var d1, d2 := NatToString(i1), NatToString(i2);
    var id := EntryId(g1, i1);
    assert id == (g1 + "-") + d1 == (g2 + "-") + d2;
    DashBeforeDigits(g1, d1);
    DashBeforeDigits(g2, d2);
    assert |d1| == |d2|;
    assert d1 == id[|id| - |d1|..] == d2;
    assert g1 + "-" == id[..|id| - |d1|] == g2 + "-";
    assert g1 == (g1 + "-")[..|g1|];
    assert g2 == (g2 + "-")[..|g2|];
    NatToStringInjective(i1, i2);
  }

  /** In `${group}-${digits}` the dash sits just before the digits, and
      everything after it is a digit. */
  lemma DashBeforeDigits(group: string, digits: string)
    requires AllDigits(digits)
    ensures var id := group + "-" + digits;
      && id[|id| - |digits| - 1] == '-'
      && forall k :: |id| - |digits| <= k < |id| ==> IsDigit(id[k])
  {
    var id := group + "-" + digits;
    forall k | |id| - |digits| <= k < |id|
      ensures IsDigit(id[k])
    {
      assert id[k] == digits[k - (|id| - |digits|)];
    }
  }
}
