/** The loosely structured document the parser reads, and the handful of
    JavaScript semantics it relies on when reading it: truthiness, `||`, `??`,
    optional property reads, strict equality, numeric coercion and
    `Object.keys`. Numbers are integers; fractions are not modelled. */
module JsonValue {
  import opened Results
  import opened Numerals
  import Sequences

  /** A JavaScript value as `JSON.parse` produces it, plus `undefined`, which
      is what reading a missing property gives. An object keeps its entries in
      source order; when a key repeats, the last entry is the one a read sees. */
  datatype Json =
    | Undefined
    | Null
    | Bool(b: bool)
    | Num(n: int)
    | Str(s: string)
    | Arr(elems: seq<Json>)
    | Obj(entries: seq<(string, Json)>)
  {
    /** `null` or `undefined`: what `??` replaces and what a plain property
        read throws on. */
    predicate IsNullish() {
      Undefined? || Null?
    }
  }

  /** JavaScript truthiness: `undefined`, `null`, `false`, `0` and `""` are
      falsy; every array and object, even an empty one, is truthy. */
  predicate Truthy(j: Json) {
    match j
    case Undefined => false
    case Null => false
    case Bool(b) => b
    case Num(n) => n != 0
    case Str(s) => s != ""
    case Arr(_) => true
    case Obj(_) => true
  }

  /** The value of the last entry named `key`, or `undefined`. */
  function Lookup(entries: seq<(string, Json)>, key: string): (r: Json)
    ensures (forall i :: 0 <= i < |entries| ==> entries[i].0 != key) ==> r == Undefined
  {
    if entries == [] then Undefined
    else if entries[|entries| - 1].0 == key then entries[|entries| - 1].1
    else Lookup(entries[..|entries| - 1], key)
  }

  /** A read sees the last entry with the key: a repeated key in the document
      is overridden by its later occurrence, as `JSON.parse` does it. */
  lemma {:induction false} LookupLastWins(entries: seq<(string, Json)>, key: string, i: nat)
    requires i < |entries| && entries[i].0 == key
    requires forall j :: i < j < |entries| ==> entries[j].0 != key
    ensures Lookup(entries, key) == entries[i].1
  {
    if i < |entries| - 1 {
      LookupLastWins(entries[..|entries| - 1], key, i);
    }
  }

  /** `j?.[key]`, and `j[key]` when `j` is known not to be nullish: an own
      property of an object, `undefined` for every other kind of value. */
  function Get(j: Json, key: string): Json
  {
    if j.Obj? then Lookup(j.entries, key) else Undefined
  }

  /** `a || b`. */
  function Or(a: Json, b: Json): Json
  {
    if Truthy(a) then a else b
  }

  /** `a ?? b`. */
  function Coalesce(a: Json, b: Json): Json
  {
    if a.IsNullish() then b else a
  }

  /** `r` is what `a || b` gives: `a` when it is truthy, otherwise `b`. */
  predicate IsOr(r: Json, a: Json, b: Json)
  {
    (Truthy(a) ==> r == a) && (!Truthy(a) ==> r == b)
  }

  /** `r` is what `a ?? b` gives: `a` unless it is `null` or `undefined`,
      otherwise `b`. */
  predicate IsCoalesce(r: Json, a: Json, b: Json)
  {
    (!a.IsNullish() ==> r == a) && (a.IsNullish() ==> r == b)
  }

  /** `a === b`. Every array and object `JSON.parse` builds is a distinct
      reference, so two of them are never strictly equal. */
  predicate StrictEquals(a: Json, b: Json)
  {
    !a.Arr? && !a.Obj? && a == b
  }

  /** The numeric coercion `Number(j)` that `>=` and `-` apply; `None` is NaN.
      Arrays and objects are taken to coerce to NaN. */
  function ToNumber(j: Json): Option<int>
  {
    match j
    case Undefined => None
    case Null => Some(0)
    case Bool(b) => Some(if b then 1 else 0)
    case Num(n) => Some(n)
    case Str(s) => StringToNumber(s)
    case Arr(_) => None
    case Obj(_) => None
  }

  /** `Object.keys(j)`: the distinct keys of an object, the indices of an array
      or of a string's characters, nothing for any other value. */
  function ObjectKeys(j: Json): (keys: seq<string>)
    ensures j.Obj? ==> forall k :: k in keys <==> exists i :: 0 <= i < |j.entries| && j.entries[i].0 == k
    ensures j.Arr? ==> |keys| == |j.elems|
  {
    match j
    case Obj(entries) =>
      Sequences.MapMembers(EntryKey, entries);
      Sequences.Distinct(Sequences.Map(EntryKey, entries))
    case Arr(elems) => IndexKeys(|elems|)
    case Str(s) => IndexKeys(|s|)
    case _ => []
  }

  function EntryKey(e: (string, Json)): string
  {
    e.0
  }

  /** `"0"`, `"1"`, ..., up to `n - 1`. */
  function IndexKeys(n: nat): (keys: seq<string>)
    ensures |keys| == n
    ensures forall i :: 0 <= i < n ==> keys[i] == NatToString(i)
  {
    if n == 0 then [] else IndexKeys(n - 1) + [NatToString(n - 1)]
  }

  /** `j[key]` for a key `ObjectKeys(j)` lists: an object's property, an
      array's element at that index, a string's character as a one-letter
      string. */
  function Member(j: Json, index: nat, key: string): Json
  {
    match j
    case Obj(entries) => Lookup(entries, key)
    case Arr(elems) => if index < |elems| then elems[index] else Undefined
    case Str(s) => if index < |s| then Str([s[index]]) else Undefined
    case _ => Undefined
  }
}
