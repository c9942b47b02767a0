/** The view model of the items tab (app/components/ItemsTab.tsx): the
    filtered list, its grouping by container, the container names, the type
    filter's choices and the order the containers are listed in. Items and
    containers carry the field types the record declares. */
module ItemsTab {
  import opened Results
  import opened Sequences
  import opened Sorting
  import Grouping
  import TreeView

  /** An item as the tab reads it: `equipped` is an optional boolean, whose
      absence reads as false; `containerId` may be missing or null (None). */
  datatype TabItem = TabItem(name: string, itemType: string, equipped: bool, containerId: Option<string>)

  datatype TabContainer = TabContainer(id: string, name: string)

  /** The equipped filter: 'all' | 'equipped' | 'unequipped'. */
  datatype EquippedFilter = AnyEquipped | EquippedOnly | UnequippedOnly

  /** The type filter's value meaning "every type". */
  const AllTypes := "all"

  /** The key of the group for items outside any container. */
  const NoContainer := "no-container"

  /** The list callback: containers are never listed; the type and equipped
      filters each drop what they exclude. */
  predicate Listed(filterType: string, filterEquipped: EquippedFilter, item: TabItem)
  {
    if item.itemType == "container" then false
    else if filterType != AllTypes && item.itemType != filterType then false
    else if filterEquipped == EquippedOnly && !item.equipped then false
    else if filterEquipped == UnequippedOnly && item.equipped then false
    else true
  }

  function FilteredItems(items: seq<TabItem>, filterType: string, filterEquipped: EquippedFilter): seq<TabItem>
  {
    Filter(item => Listed(filterType, filterEquipped, item), items)
  }

  /** The filtered list keeps the input's order and holds exactly the
      non-container items of the chosen type and equipped state. */
  lemma FilteredItemsExactly(items: seq<TabItem>, filterType: string, filterEquipped: EquippedFilter)
    ensures IsSubsequence(FilteredItems(items, filterType, filterEquipped), items)
    ensures forall item :: item in FilteredItems(items, filterType, filterEquipped) <==>
      && item in items
      && item.itemType != "container"
      && (filterType == AllTypes || item.itemType == filterType)
      && (filterEquipped == EquippedOnly ==> item.equipped)
      && (filterEquipped == UnequippedOnly ==> !item.equipped)
  {
    FilterIsSubsequence(item => Listed(filterType, filterEquipped, item), items);
  }

  /** `item.containerId || 'no-container'`: a missing, null or empty
      container id puts the item in the no-container group. */
  function ContainerKey(item: TabItem): string
  {
    match item.containerId
    case Some(id) => if id != "" then id else NoContainer
    case None => NoContainer
  }

  /** `itemsByContainer`: the filtered items grouped by container key, with
      the object's keys in insertion order. Every item is in the group of its
      container and in no other, no group is empty, each group keeps the
      list's order, and the groups together hold every filtered item once. */
  method ItemsByContainer(filtered: seq<TabItem>) returns (groups: map<string, seq<TabItem>>, order: seq<string>)
    ensures forall k :: k in groups <==> k in order
    ensures forall i, j :: 0 <= i < j < |order| ==> order[i] != order[j]
    ensures forall item, k :: item in filtered && k in groups ==> (item in groups[k] <==> k == ContainerKey(item))
    ensures forall item :: item in filtered ==> ContainerKey(item) in groups
    ensures forall k :: k in groups ==> groups[k] != [] && IsSubsequence(groups[k], filtered)
    ensures forall k, item :: k in groups && item in groups[k] ==> item in filtered
    ensures order == Keys(ContainerKey, filtered)
    ensures forall k :: k in groups ==> groups[k] == Bucket(ContainerKey, filtered, k)
    ensures Grouping.TotalSize(groups, order) == |filtered|
  {
    groups, order := Grouping.GroupBy(ContainerKey, filtered);
    Grouping.GroupsPartition(ContainerKey, filtered, groups, order);
  }

  /** `toggleContainer`: a copy of the expanded set with the container
      removed if present and added otherwise. */
  method ToggleContainer(expanded: set<string>, containerId: string) returns (newExpanded: set<string>)
    ensures newExpanded == TreeView.Toggled(expanded, containerId)
  {
    newExpanded := expanded;
    if containerId in newExpanded {
      newExpanded := newExpanded - {containerId};
    } else {
      newExpanded := newExpanded + {containerId};
    }
  }

  /** `new Map(containers.map(c => [c.id, c.name]))`: later entries overwrite
      earlier ones with the same id. */
  function ContainerNames(containers: seq<TabContainer>): (names: map<string, string>)
    ensures forall id :: id in names <==> exists c :: c in containers && c.id == id
  {
    if containers == [] then map[]
    else
      var last := containers[|containers| - 1];
      ContainerNames(containers[..|containers| - 1])[last.id := last.name]
  }

  /** The name the map holds for an id is that of the last container with
      that id. */
  lemma {:induction false} ContainerNamesLastWins(containers: seq<TabContainer>, i: nat)
    requires i < |containers|
    requires forall j :: i < j < |containers| ==> containers[j].id != containers[i].id
    ensures ContainerNames(containers)[containers[i].id] == containers[i].name
  {
    if i < |containers| - 1 {
      ContainerNamesLastWins(containers[..|containers| - 1], i);
    }
  }

  /** `getContainerName`: the no-container group's fixed label, else the
      container's name, else (no such container, or an empty name) the
      unknown label. */
  function ContainerName(names: map<string, string>, containerId: string): (shown: string)
    ensures containerId == NoContainer ==> shown == "No Container"
    ensures shown != ""
    ensures shown == "Unknown Container" <==>
      containerId != NoContainer && (containerId !in names || names[containerId] in {"", "Unknown Container"})
    ensures containerId != NoContainer && shown != "Unknown Container" ==> containerId in names && shown == names[containerId]
  {
    if containerId == NoContainer then "No Container"
    else if containerId in names && names[containerId] != "" then names[containerId]
    else "Unknown Container"
  }

  /** An id no container has, other than the no-container key, is labelled
      as unknown. */
  lemma DanglingContainerName(containers: seq<TabContainer>, containerId: string)
    requires containerId != NoContainer
    requires forall c :: c in containers ==> c.id != containerId
    ensures ContainerName(ContainerNames(containers), containerId) == "Unknown Container"
  {
  }

  /** A container whose (last) name is empty is labelled as unknown, like a
      missing one: `||` treats the empty name as falsy. */
  lemma EmptyNameIsUnknown(containers: seq<TabContainer>, i: nat)
    requires i < |containers| && containers[i].id != NoContainer && containers[i].name == ""
    requires forall j :: i < j < |containers| ==> containers[j].id != containers[i].id
    ensures ContainerName(ContainerNames(containers), containers[i].id) == "Unknown Container"
  {
    ContainerNamesLastWins(containers, i);
  }

  /** An item in a container shows the name of the last container with that
      id, when that name is not empty. */
  lemma ContainerNameOfLast(containers: seq<TabContainer>, i: nat)
    requires i < |containers| && containers[i].id != NoContainer && containers[i].name != ""
    requires forall j :: i < j < |containers| ==> containers[j].id != containers[i].id
    ensures ContainerName(ContainerNames(containers), containers[i].id) == containers[i].name
  {
    ContainerNamesLastWins(containers, i);
  }

  predicate IsListable(item: TabItem)
  {
    item.itemType != "container"
  }

  function ItemType(item: TabItem): string
  {
    item.itemType
  }

  /** `itemTypes`: the types of the non-container items, each once, in order
      of first appearance. */
  function ItemTypes(items: seq<TabItem>): seq<string>
  {
    Distinct(Map(ItemType, Filter(IsListable, items)))
  }

  /** The type filter offers exactly the types some non-container item has,
      each once, and never "container". */
  lemma ItemTypesExactly(items: seq<TabItem>)
    ensures forall t :: t in ItemTypes(items) <==> exists item :: item in items && item.itemType != "container" && item.itemType == t
    ensures forall i, j :: 0 <= i < j < |ItemTypes(items)| ==> ItemTypes(items)[i] != ItemTypes(items)[j]
    ensures "container" !in ItemTypes(items)
  {
    var listable := Filter(IsListable, items);
    forall t | t in ItemTypes(items)
      ensures exists item :: item in items && item.itemType != "container" && item.itemType == t
    {
      var i :| 0 <= i < |listable| && Map(ItemType, listable)[i] == t;
      assert listable[i] in listable;
    }
    forall item | item in items && item.itemType != "container"
      ensures item.itemType in ItemTypes(items)
    {
      assert item in listable;
      var i :| 0 <= i < |listable| && listable[i] == item;
      assert Map(ItemType, listable)[i] == item.itemType;
    }
  }

  /** The container comparator: the no-container key before every other,
      the rest by name. Names are compared by code unit. */
  predicate ContainerBefore(names: map<string, string>, a: string, b: string)
  {
    a == NoContainer || (b != NoContainer && LexLeq(ContainerName(names, a), ContainerName(names, b)))
  }

  lemma ContainerBeforeIsPreorder(names: map<string, string>)
    ensures TotalPreorder((a, b) => ContainerBefore(names, a, b))
  {
    forall a, b
      ensures ContainerBefore(names, a, b) || ContainerBefore(names, b, a)
    {
      LexLeqTotal(ContainerName(names, a), ContainerName(names, b));
    }
    forall a, b, c | ContainerBefore(names, a, b) && ContainerBefore(names, b, c)
      ensures ContainerBefore(names, a, c)
    {
      if a != NoContainer {
        LexLeqTransitive(ContainerName(names, a), ContainerName(names, b), ContainerName(names, c));
      }
    }
  }

  /** `sortedContainerIds`: the group keys sorted by the comparator. */
  function SortedContainerIds(names: map<string, string>, order: seq<string>): seq<string>
  {
    Sort((a, b) => ContainerBefore(names, a, b), order)
  }

  /** The sorted keys are the group keys rearranged; the no-container group
      comes first when present; the other containers follow by name. */
  lemma SortedContainerIdsOrder(names: map<string, string>, order: seq<string>)
    ensures multiset(SortedContainerIds(names, order)) == multiset(order)
    ensures NoContainer in order ==> SortedContainerIds(names, order)[0] == NoContainer
    ensures forall i, j :: 0 <= i < j < |SortedContainerIds(names, order)| ==>
      var a, b := SortedContainerIds(names, order)[i], SortedContainerIds(names, order)[j];
      a != NoContainer && b != NoContainer ==> LexLeq(ContainerName(names, a), ContainerName(names, b))
  {
    var leq := (a, b) => ContainerBefore(names, a, b);
    var sorted := SortedContainerIds(names, order);
    ContainerBeforeIsPreorder(names);
    SortSorted(leq, order);
    if NoContainer in order {
      assert NoContainer in multiset(sorted);
      var k :| 0 <= k < |sorted| && sorted[k] == NoContainer;
      if k > 0 {
        assert leq(sorted[0], sorted[k]);
      }
    }
    forall i, j | 0 <= i < j < |sorted|
      ensures sorted[i] != NoContainer && sorted[j] != NoContainer ==> LexLeq(ContainerName(names, sorted[i]), ContainerName(names, sorted[j]))
    {
      assert leq(sorted[i], sorted[j]);
    }
  }
}
