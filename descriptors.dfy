/** The scalar extractors of lib/characterParser.ts: the name, the race, class
    and background names resolved through the `items` array, the alignment,
    and hit points, armour class and walking speed with their defaults. */
module Descriptors {
  import opened Results
  import opened JsonValue
  import opened CharacterTypes

  /** `system.details`. */
  function Details(raw: Json): Json
  {
    Get(Get(raw, "system"), "details")
  }

  /** `data.name || ''`: the document's name when truthy, otherwise the empty
      string, so the result is never `null` or `undefined`. */
  function ExtractName(raw: Json): (name: Json)
    ensures Truthy(name) || name == Str("")
    ensures Truthy(Get(raw, "name")) ==> name == Get(raw, "name")
    ensures !Truthy(Get(raw, "name")) ==> name == Str("")
  {
    Or(Get(raw, "name"), Str(""))
  }

  /** `system.details.alignment || ''`. */
  function ExtractAlignment(raw: Json): (alignment: Json)
    ensures Truthy(alignment) || alignment == Str("")
    ensures Truthy(Get(Details(raw), "alignment")) ==> alignment == Get(Details(raw), "alignment")
    ensures !Truthy(Get(Details(raw), "alignment")) ==> alignment == Str("")
  {
    Or(Get(Details(raw), "alignment"), Str(""))
  }

  /** The `find` callback of the descriptor lookups: the element's `_id` is the
      referenced ID, or its `type` is the category. Reading either property of
      a nullish element throws, so a nullish element is never a match. */
  predicate Matches(item: Json, id: Json, category: string)
  {
    !item.IsNullish() &&
    (StrictEquals(Get(item, "_id"), id) || StrictEquals(Get(item, "type"), Str(category)))
  }

  /** No element before index `i` stops the scan. */
  predicate NoStopBefore(elems: seq<Json>, id: Json, category: string, i: int)
    requires i <= |elems|
  {
    forall j :: 0 <= j < i ==> !elems[j].IsNullish() && !Matches(elems[j], id, category)
  }

  /** `items.find(callback)`: the first element, in source order, that
      matches; `undefined` (`None`) when none does; a `TypeError` when a
      nullish element is reached before any match. */
  function Find(elems: seq<Json>, id: Json, category: string): (r: Result<Option<Json>>)
    ensures r == Ok(None) <==> NoStopBefore(elems, id, category, |elems|)
    ensures r.Ok? && r.value.Some? ==>
      exists i :: 0 <= i < |elems| && elems[i] == r.value.value && Matches(elems[i], id, category) &&
                  NoStopBefore(elems, id, category, i)
    ensures r.TypeError? ==>
      exists i :: 0 <= i < |elems| && elems[i].IsNullish() && NoStopBefore(elems, id, category, i)
  {
    if elems == [] then Ok(None)
    else if elems[0].IsNullish() then TypeError
    else if Matches(elems[0], id, category) then Ok(Some(elems[0]))
    else
      var r := Find(elems[1..], id, category);
      assert r.Ok? && r.value.Some? ==>
        exists i :: (0 <= i < |elems| - 1 && elems[1..][i] == r.value.value &&
                     Matches(elems[1..][i], id, category) && NoStopBefore(elems[1..], id, category, i));
      r
  }

  /** The lookup behind `extractRace`, `extractClass` and `extractBackground`:
      read the ID at `system.details[idKey]`; when it and `items` are both
      truthy, return the `name || ''` of the first item whose `_id` is that ID
      or whose `type` is `category`, and the empty string otherwise. */
  function ExtractDescriptor(raw: Json, idKey: string, category: string): (r: Result<Json>)
    ensures !Truthy(Get(Details(raw), idKey)) || !Truthy(Get(raw, "items")) ==> r == Ok(Str(""))
    ensures r.Ok? ==> Truthy(r.value) || r.value == Str("")
    ensures r.TypeError? ==>
      && Truthy(Get(raw, "items"))
      && (!Get(raw, "items").Arr? || exists i :: 0 <= i < |Get(raw, "items").elems| && Get(raw, "items").elems[i].IsNullish())
  {
    var id := Get(Details(raw), idKey);
    var items := Get(raw, "items");
    if !(Truthy(id) && Truthy(items)) then Ok(Str(""))
    else if !items.Arr? then TypeError
    else
      match Find(items.elems, id, category)
      case TypeError => TypeError
      case Ok(None) => Ok(Str(""))
      case Ok(Some(item)) => Ok(Or(Get(item, "name"), Str("")))
  }

  /** When the ID and the array are present, the result is the name of the
      first matching item in source order, as long as no nullish element comes
      before it; a later matching item never wins. */
  lemma DescriptorIsFirstMatch(raw: Json, idKey: string, category: string, i: nat)
    requires Truthy(Get(Details(raw), idKey)) && Get(raw, "items").Arr?
    requires i < |Get(raw, "items").elems|
    requires Matches(Get(raw, "items").elems[i], Get(Details(raw), idKey), category)
    requires NoStopBefore(Get(raw, "items").elems, Get(Details(raw), idKey), category, i)
    ensures ExtractDescriptor(raw, idKey, category) == Ok(Or(Get(Get(raw, "items").elems[i], "name"), Str("")))
  {
    var elems, id := Get(raw, "items").elems, Get(Details(raw), idKey);
    var r := Find(elems, id, category);
    if r.Ok? && r.value.Some? {
      var k :| 0 <= k < |elems| && elems[k] == r.value.value && Matches(elems[k], id, category) &&
               NoStopBefore(elems, id, category, k);
      assert k == i;
    }
  }

  /** When nothing matches, the lookup gives the empty string. */
  lemma DescriptorWithoutMatch(raw: Json, idKey: string, category: string)
    requires Get(raw, "items").Arr?
    requires NoStopBefore(Get(raw, "items").elems, Get(Details(raw), idKey), category, |Get(raw, "items").elems|)
    ensures ExtractDescriptor(raw, idKey, category) == Ok(Str(""))
  {
  }

  /** `extractRace`: the race ID is `system.details.race`. */
  function ExtractRace(raw: Json): (r: Result<Json>)
    ensures !Truthy(Get(Details(raw), "race")) || !Truthy(Get(raw, "items")) ==> r == Ok(Str(""))
    ensures r.Ok? ==> Truthy(r.value) || r.value == Str("")
  {
    ExtractDescriptor(raw, "race", "race")
  }

  /** `extractClass`: the class ID is `system.details.originalClass`. */
  function ExtractClass(raw: Json): (r: Result<Json>)
    ensures !Truthy(Get(Details(raw), "originalClass")) || !Truthy(Get(raw, "items")) ==> r == Ok(Str(""))
    ensures r.Ok? ==> Truthy(r.value) || r.value == Str("")
  {
    ExtractDescriptor(raw, "originalClass", "class")
  }

  /** `extractBackground`: the background ID is `system.details.background`. */
  function ExtractBackground(raw: Json): (r: Result<Json>)
    ensures !Truthy(Get(Details(raw), "background")) || !Truthy(Get(raw, "items")) ==> r == Ok(Str(""))
    ensures r.Ok? ==> Truthy(r.value) || r.value == Str("")
  {
    ExtractDescriptor(raw, "background", "background")
  }

  /** `system.attributes`. */
  function Attributes(raw: Json): Json
  {
    Get(Get(raw, "system"), "attributes")
  }

  /** `extractHP`: nothing when `system.attributes.hp` is falsy; otherwise
      `value ?? 0`, `max ?? value ?? 0` and `temp ?? 0`. A `0` in the document
      is kept; only `null` and `undefined` are replaced. */
  function ExtractHP(raw: Json): (hp: Option<HitPoints>)
    ensures hp.None? <==> !Truthy(Get(Attributes(raw), "hp"))
    ensures hp.Some? ==> !hp.value.value.IsNullish() && !hp.value.max.IsNullish() && !hp.value.temp.IsNullish()
    ensures hp.Some? && !Get(Get(Attributes(raw), "hp"), "value").IsNullish() ==>
      hp.value.value == Get(Get(Attributes(raw), "hp"), "value")
    ensures hp.Some? && Get(Get(Attributes(raw), "hp"), "value").IsNullish() ==> hp.value.value == Num(0)
    ensures hp.Some? && !Get(Get(Attributes(raw), "hp"), "temp").IsNullish() ==>
      hp.value.temp == Get(Get(Attributes(raw), "hp"), "temp")
    ensures hp.Some? && Get(Get(Attributes(raw), "hp"), "temp").IsNullish() ==> hp.value.temp == Num(0)
    ensures hp.Some? && Get(Get(Attributes(raw), "hp"), "max").IsNullish() ==> hp.value.max == hp.value.value
    ensures hp.Some? && !Get(Get(Attributes(raw), "hp"), "max").IsNullish() ==>
      hp.value.max == Get(Get(Attributes(raw), "hp"), "max")
  {
    var h := Get(Attributes(raw), "hp");
    if !Truthy(h) then None
    else
      Some(HitPoints(
        Coalesce(Get(h, "value"), Num(0)),
        Coalesce(Get(h, "max"), Coalesce(Get(h, "value"), Num(0))),
        Coalesce(Get(h, "temp"), Num(0))))
  }

  /** `system.attributes.ac?.flat ?? undefined`: the flat armour class, with
      `null` read as absent. */
  function ExtractAC(raw: Json): (ac: Json)
    ensures !ac.Null?
    ensures !Get(Get(Attributes(raw), "ac"), "flat").IsNullish() ==> ac == Get(Get(Attributes(raw), "ac"), "flat")
    ensures Get(Get(Attributes(raw), "ac"), "flat").IsNullish() ==> ac == Undefined
  {
    Coalesce(Get(Get(Attributes(raw), "ac"), "flat"), Undefined)
  }

  /** `system.attributes.movement?.walk ?? undefined`. */
  function ExtractSpeed(raw: Json): (speed: Json)
    ensures !speed.Null?
    ensures !Get(Get(Attributes(raw), "movement"), "walk").IsNullish() ==>
      speed == Get(Get(Attributes(raw), "movement"), "walk")
    ensures Get(Get(Attributes(raw), "movement"), "walk").IsNullish() ==> speed == Undefined
  {
    Coalesce(Get(Get(Attributes(raw), "movement"), "walk"), Undefined)
  }
}
