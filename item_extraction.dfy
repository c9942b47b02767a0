/** Inventory items, containers and features (lib/characterParser.ts,
    `extractItems`, `extractContainers`, `extractFeatures` and
    `extractTraits`). All three scan the flat `items` array in source order. */
module ItemExtraction {
  import opened Results
  import opened JsonValue
  import opened CharacterTypes
  import opened SourceItems
  import Sequences

  /** The entry types that have their own extractor and are not inventory. */
  const HandledElsewhere: seq<string> := ["spell", "race", "class", "background", "feat"]

  /** The test `extractItems` applies to each element that is not `null`: an
      object or array with a truthy `type` that is not one of the types handled
      elsewhere. Container entries pass it. */
  predicate IsInventoryEntry(item: Json)
  {
    && (item.Arr? || item.Obj?)
    && Truthy(Get(item, "type"))
    && !(Get(item, "type").Str? && Get(item, "type").s in HandledElsewhere)
  }

  /** The record `extractItems` pushes for one inventory entry. */
  function ToItem(item: Json): Item
  {
    var system := Or(Get(item, "system"), Obj([]));
    Item(
      Or(Get(item, "name"), Str("")),
      Or(Get(item, "type"), Str("misc")),
      Coalesce(Get(system, "quantity"), Num(1)),
      Get(Get(system, "weight"), "value"),
      Or(Get(Get(system, "description"), "value"), Str("")),
      Coalesce(Get(system, "equipped"), Bool(false)),
      StrictEquals(Get(system, "attunement"), Str("required")) || StrictEquals(Get(system, "attuned"), Bool(true)),
      Or(Get(system, "rarity"), Str("")),
      Or(Get(Get(system, "properties"), "value"), Arr([])),
      Or(Get(system, "container"), Null))
  }

  /** The defaults of an item record: `quantity ?? 1` keeps a stored 0;
      `container || null` turns an empty container ID into `null`; attunement
      holds exactly when it is `'required'` or `attuned` is `true`; the type of
      an inventory entry is kept as it is. */
  lemma ToItemDefaults(item: Json)
    ensures var r, system := ToItem(item), Or(Get(item, "system"), Obj([]));
      && IsOr(system, Get(item, "system"), Obj([]))
      && IsOr(r.name, Get(item, "name"), Str(""))
      && IsOr(r.itemType, Get(item, "type"), Str("misc"))
      && (IsInventoryEntry(item) ==> r.itemType == Get(item, "type"))
      && IsCoalesce(r.quantity, Get(system, "quantity"), Num(1))
      && r.weight == Get(Get(system, "weight"), "value")
      && IsOr(r.description, Get(Get(system, "description"), "value"), Str(""))
      && IsCoalesce(r.equipped, Get(system, "equipped"), Bool(false))
      && (r.attunement <==> Get(system, "attunement") == Str("required") || Get(system, "attuned") == Bool(true))
      && IsOr(r.rarity, Get(system, "rarity"), Str(""))
      && IsOr(r.properties, Get(Get(system, "properties"), "value"), Arr([]))
      && IsOr(r.containerId, Get(system, "container"), Null)
  {
  }

  /** What `extractItems` returns: no items unless `items` is an array. */
  function Items(raw: Json): (r: Result<seq<Item>>)
    ensures !ItemsOrEmpty(raw).Arr? ==> r == Ok([])
  {
    ObjectScan(IsInventoryEntry, ToItem, GuardedItems(raw))
  }

  /** The item list is the inventory entries, converted one by one, in source
      order, one record per inventory entry. */
  lemma ItemsAreInventoryEntries(raw: Json)
    requires Items(raw).Ok?
    ensures var elems := GuardedItems(raw);
      var entries := Sequences.Filter(IsInventoryEntry, elems);
      && Sequences.IsSubsequence(entries, elems)
      && |Items(raw).value| == |entries| == |Sequences.Positions(IsInventoryEntry, elems)|
      && (forall k :: 0 <= k < |entries| ==> Items(raw).value[k] == ToItem(entries[k]) && IsInventoryEntry(entries[k]))
  {
    Sequences.FilterMapShape(IsInventoryEntry, ToItem, GuardedItems(raw));
  }

  /** `extractItems`: when `items` is an array, one `forEach` that tests each
      element and pushes a record for each inventory entry. */
  method ExtractItems(raw: Json) returns (r: Result<seq<Item>>)
    ensures r == Items(raw)
  {
    var itemsData := ItemsOrEmpty(raw);
    if !itemsData.Arr? {
      return Ok([]);
    }
    r := ScanObjects(IsInventoryEntry, ToItem, itemsData.elems);
  }

  /** The test `extractContainers` applies: an object or array of type
      `container` with a truthy `_id`. */
  predicate IsContainerEntry(item: Json)
  {
    (item.Arr? || item.Obj?) && StrictEquals(Get(item, "type"), Str("container")) && Truthy(Get(item, "_id"))
  }

  /** `{ id: item._id, name: item.name || 'Unnamed Container' }`. */
  function ToContainer(item: Json): (c: Container)
    ensures c.id == Get(item, "_id")
    ensures Truthy(Get(item, "name")) ==> c.name == Get(item, "name")
    ensures !Truthy(Get(item, "name")) ==> c.name == Str("Unnamed Container")
  {
    Container(Get(item, "_id"), Or(Get(item, "name"), Str("Unnamed Container")))
  }

  /** What `extractContainers` returns: no containers unless `items` is an
      array. */
  function Containers(raw: Json): (r: Result<seq<Container>>)
    ensures !ItemsOrEmpty(raw).Arr? ==> r == Ok([])
    ensures r.TypeError? <==> Items(raw).TypeError?
  {
    ObjectScan(IsContainerEntry, ToContainer, GuardedItems(raw))
  }

  /** The containers are the container entries in source order, each with a
      truthy ID. */
  lemma ContainersAreContainerEntries(raw: Json)
    requires Containers(raw).Ok?
    ensures var elems := GuardedItems(raw);
      var entries := Sequences.Filter(IsContainerEntry, elems);
      && Sequences.IsSubsequence(entries, elems)
      && |Containers(raw).value| == |Sequences.Positions(IsContainerEntry, elems)|
      && (forall k :: 0 <= k < |entries| ==> Containers(raw).value[k] == ToContainer(entries[k]))
      && (forall c :: c in Containers(raw).value ==> Truthy(c.id))
  {
    var elems := GuardedItems(raw);
    var entries := Sequences.Filter(IsContainerEntry, elems);
    Sequences.FilterMapShape(IsContainerEntry, ToContainer, elems);
    forall c | c in Containers(raw).value
      ensures Truthy(c.id)
    {
      var k :| 0 <= k < |entries| && Containers(raw).value[k] == c;
    }
  }

  /** A container entry is also an inventory entry: `extractItems` does not
      skip containers, so each container appears in the item list as well. */
  lemma ContainerIsInventoryEntry(item: Json)
    requires IsContainerEntry(item)
    ensures IsInventoryEntry(item)
    ensures ToItem(item).itemType == Str("container")
  {
  }

  /** `extractContainers`: the same `forEach` shape as `extractItems`. */
  method ExtractContainers(raw: Json) returns (r: Result<seq<Container>>)
    ensures r == Containers(raw)
  {
    var itemsData := ItemsOrEmpty(raw);
    if !itemsData.Arr? {
      return Ok([]);
    }
    r := ScanObjects(IsContainerEntry, ToContainer, itemsData.elems);
  }

  /** The `filter` callback of `extractFeatures`. */
  predicate IsFeatEntry(item: Json)
  {
    StrictEquals(Get(item, "type"), Str("feat"))
  }

  /** `{ name: feat.name || '', description: system.description?.value || '' }`. */
  function ToFeature(feat: Json): Feature
  {
    var system := Or(Get(feat, "system"), Obj([]));
    Feature(Or(Get(feat, "name"), Str("")), Or(Get(Get(system, "description"), "value"), Str("")))
  }

  /** A feature's name and description are the document's truthy values,
      otherwise `''`, so never `null` or `undefined`. */
  lemma ToFeatureDefaults(feat: Json)
    ensures var f, system := ToFeature(feat), Or(Get(feat, "system"), Obj([]));
      && IsOr(f.name, Get(feat, "name"), Str(""))
      && IsOr(f.description, Get(Get(system, "description"), "value"), Str(""))
      && (Truthy(f.name) || f.name == Str(""))
      && (Truthy(f.description) || f.description == Str(""))
  {
  }

  /** What `extractFeatures` returns: the `feat` entries in source order, with
      the same `TypeError` cases as `extractSpells`. */
  function Features(raw: Json): (r: Result<seq<Feature>>)
    ensures r.Ok? <==> FilterableItems(raw).Ok?
  {
    var elems :- FilterableItems(raw);
    Ok(Sequences.Map(ToFeature, Sequences.Filter(IsFeatEntry, elems)))
  }

  /** One feature per `feat` entry, in source order. */
  lemma FeaturesAreFeatEntries(raw: Json)
    requires Features(raw).Ok?
    ensures var elems := FilterableItems(raw).value;
      var entries := Sequences.Filter(IsFeatEntry, elems);
      && Sequences.IsSubsequence(entries, elems)
      && |Features(raw).value| == |Sequences.Positions(IsFeatEntry, elems)|
      && (forall k :: 0 <= k < |entries| ==> Features(raw).value[k] == ToFeature(entries[k]) && IsFeatEntry(entries[k]))
  {
    Sequences.FilterMapShape(IsFeatEntry, ToFeature, FilterableItems(raw).value);
  }

  /** `extractFeatures`: filter the `feat` entries, then push one record per
      entry. */
  method ExtractFeatures(raw: Json) returns (r: Result<seq<Feature>>)
    ensures r == Features(raw)
  {
    var items := ItemsOrEmpty(raw);
    if !items.Arr? {
      return TypeError;
    }
    var featItems := FilterEntries(IsFeatEntry, items.elems);
    if featItems.TypeError? {
      return TypeError;
    }
    var features := PushEach(ToFeature, featItems.value);
    return Ok(features);
  }

  /** `extractTraits` always returns an empty list. */
  function Traits(raw: Json): (traits: seq<Feature>)
    ensures |traits| == 0
  {
    []
  }
}
