/** The document's flat `items` array, which several extractors scan, and the
    two ways they reach it (lib/characterParser.ts). */
module SourceItems {
  import opened Results
  import opened JsonValue
  import Sequences

  /** `data.items || []`. */
  function ItemsOrEmpty(raw: Json): Json
  {
    Or(Get(raw, "items"), Arr([]))
  }

  predicate NoNullish(elems: seq<Json>)
  {
    forall i :: 0 <= i < |elems| ==> !elems[i].IsNullish()
  }

  /** `(data.items || []).filter(item => item.type === ...)`, the reach of
      `extractSpells` and `extractFeatures`: a truthy `items` that is not an
      array has no `filter`, and the callback reads `type` from every element,
      so a `null` element throws. */
  function FilterableItems(raw: Json): (r: Result<seq<Json>>)
    ensures r.Ok? <==> ItemsOrEmpty(raw).Arr? && NoNullish(ItemsOrEmpty(raw).elems)
    ensures r.Ok? ==> r.value == ItemsOrEmpty(raw).elems
    ensures !Truthy(Get(raw, "items")) ==> r == Ok([])
  {
    var items := ItemsOrEmpty(raw);
    if !items.Arr? then TypeError
    else if exists i :: 0 <= i < |items.elems| && items.elems[i].IsNullish() then TypeError
    else Ok(items.elems)
  }

  /** No element is `null`: the condition under which the `typeof item ===
      'object'` scans of `extractItems` and `extractContainers` never read a
      property of `null`. Stated from the last element back, so a scan can
      extend it one element at a time. */
  predicate NoNull(elems: seq<Json>)
  {
    elems == [] || (NoNull(elems[..|elems| - 1]) && !elems[|elems| - 1].Null?)
  }

  /** `NoNull` holds exactly when no position holds `null`. */
  lemma {:induction false} NoNullAt(elems: seq<Json>)
    ensures NoNull(elems) <==> forall i :: 0 <= i < |elems| ==> !elems[i].Null?
  {
    if elems != [] {
      var init := elems[..|elems| - 1];
      NoNullAt(init);
      assert forall i :: 0 <= i < |init| ==> init[i] == elems[i];
    }
  }

  /** The elements `extractItems` and `extractContainers` visit: they check
      `Array.isArray` first, so anything but an array gives no elements. */
  function GuardedItems(raw: Json): (elems: seq<Json>)
    ensures !ItemsOrEmpty(raw).Arr? ==> elems == []
  {
    var items := ItemsOrEmpty(raw);
    if items.Arr? then items.elems else []
  }

  /** `elems.filter(keep)` where `keep` reads a property of each element: a
      nullish element throws; otherwise the kept elements in order. */
  method FilterEntries(keep: Json -> bool, elems: seq<Json>) returns (r: Result<seq<Json>>)
    ensures r.TypeError? <==> !NoNullish(elems)
    ensures r.Ok? ==> r.value == Sequences.Filter(keep, elems)
  {
    var kept: seq<Json> := [];
    for i := 0 to |elems|
      invariant kept == Sequences.Filter(keep, elems[..i])
      invariant forall j :: 0 <= j < i ==> !elems[j].IsNullish()
    {
      var item := elems[i];
      if item.IsNullish() {
        return TypeError;
      }
      FilterStep(keep, elems, i);
      if keep(item) {
        kept := kept + [item];
      }
    }
    assert elems[..|elems|] == elems;
    return Ok(kept);
  }

  /** Filtering one more element of `elems` appends it when it is kept. */
  lemma FilterStep(keep: Json -> bool, elems: seq<Json>, i: nat)
    requires i < |elems|
    ensures Sequences.Filter(keep, elems[..i + 1]) ==
      Sequences.Filter(keep, elems[..i]) + (if keep(elems[i]) then [elems[i]] else [])
  {
    assert elems[..i + 1] == elems[..i] + [elems[i]];
    Sequences.FilterAppend(keep, elems[..i], elems[i]);
  }

  /** `entries.forEach(e => out.push(convert(e)))`. */
  method PushEach<B>(convert: Json -> B, entries: seq<Json>) returns (out: seq<B>)
    ensures out == Sequences.Map(convert, entries)
  {
    out := [];
    for i := 0 to |entries|
      invariant out == Sequences.Map(convert, entries[..i])
    {
      var entry := entries[i];
      Sequences.MapAppend(convert, entries[..i], entry);
      assert entries[..i + 1] == entries[..i] + [entry];
      out := out + [convert(entry)];
    }
    assert entries[..|entries|] == entries;
  }

  /** What a `forEach` that tests `typeof item === 'object' && ...` and pushes
      a record per passing element yields: a `TypeError` when an element is
      `null` (its property is read), else one record per kept element. */
  function ObjectScan<B>(keep: Json -> bool, convert: Json -> B, elems: seq<Json>): (r: Result<seq<B>>)
    ensures r.TypeError? <==> exists i :: 0 <= i < |elems| && elems[i].Null?
  {
    NoNullAt(elems);
    if !NoNull(elems) then TypeError
    else Ok(Sequences.Map(convert, Sequences.Filter(keep, elems)))
  }

  /** Scanning one more element of `elems` appends its record when it is
      kept. */
  lemma ScanStep<B>(keep: Json -> bool, convert: Json -> B, elems: seq<Json>, i: nat)
    requires i < |elems|
    ensures Sequences.Map(convert, Sequences.Filter(keep, elems[..i + 1])) ==
      Sequences.Map(convert, Sequences.Filter(keep, elems[..i])) + (if keep(elems[i]) then [convert(elems[i])] else [])
  {
    FilterStep(keep, elems, i);
    Sequences.MapAppend(convert, Sequences.Filter(keep, elems[..i]), elems[i]);
  }

  /** The `forEach` itself, for a test `keep` that fails on non-objects. */
  method ScanObjects<B>(keep: Json -> bool, convert: Json -> B, elems: seq<Json>) returns (r: Result<seq<B>>)
    ensures r == ObjectScan(keep, convert, elems)
  {
    var out: seq<B> := [];
    for i := 0 to |elems|
      invariant out == Pushed(keep, convert, elems, i)
      invariant forall j :: 0 <= j < i ==> !elems[j].Null?
    {
      var item := elems[i];
      if item.Null? {
        ScanMeetsNull(keep, convert, elems, i);
        return TypeError;
      }
      if keep(item) {
        out := out + [convert(item)];
      }
    }
    PushedIsMapFilter(keep, convert, elems, |elems|);
    ScanCompletes(keep, convert, elems);
    return Ok(out);
  }

  /** The records the scan has pushed after visiting the first `n` elements. */
  function Pushed<B>(keep: Json -> bool, convert: Json -> B, elems: seq<Json>, n: nat): seq<B>
    requires n <= |elems|
  {
    if n == 0 then []
    else Pushed(keep, convert, elems, n - 1) + (if keep(elems[n - 1]) then [convert(elems[n - 1])] else [])
  }

  /** What the scan pushes is the kept prefix, converted. */
  lemma {:induction false} PushedIsMapFilter<B>(keep: Json -> bool, convert: Json -> B, elems: seq<Json>, n: nat)
    requires n <= |elems|
    ensures Pushed(keep, convert, elems, n) == Sequences.Map(convert, Sequences.Filter(keep, elems[..n]))
  {
    if n > 0 {
      PushedIsMapFilter(keep, convert, elems, n - 1);
      ScanStep(keep, convert, elems, n - 1);
    }
  }

  /** A `null` anywhere makes the scan throw. */
  lemma ScanMeetsNull<B>(keep: Json -> bool, convert: Json -> B, elems: seq<Json>, i: nat)
    requires i < |elems| && elems[i].Null?
    ensures ObjectScan(keep, convert, elems) == TypeError
  {
  }

  /** A scan that reaches the end without meeting `null` yields the records
      of the whole list. */
  lemma ScanCompletes<B>(keep: Json -> bool, convert: Json -> B, elems: seq<Json>)
    requires forall j :: 0 <= j < |elems| ==> !elems[j].Null?
    ensures ObjectScan(keep, convert, elems) == Ok(Sequences.Map(convert, Sequences.Filter(keep, elems[..|elems|])))
  {
    assert elems[..|elems|] == elems;
    NoNullAt(elems);
  }
}
