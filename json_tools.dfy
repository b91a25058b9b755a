/**
 * JSON helpers of JsonTools.kt: defaulting around `JSONObject` parsing,
 * joining an array's elements, one-level conversions between JSON objects
 * and maps, and the recursive conversion of nested arrays and objects into
 * plain lists and maps.
 */
module JsonTools {
  import opened Wrappers

  /**
   * A runtime value as these helpers see it (Kotlin's `Any`). The first six
   * constructors are the JSON values of RFC 8259, section 3, as org.json
   * holds them: `JNull` is the `JSONObject.NULL` sentinel, a number is
   * `mantissa * 10^exponent`, `JArray` a `JSONArray` and `JObject` a
   * `JSONObject`. `KList` and `KMap` are Kotlin lists and maps, and `Opaque`
   * is any other object. A Kotlin `null` is `None` of an `Option`.
   */
  datatype Value =
    | JNull
    | JBool(b: bool)
    | JNumber(mantissa: int, exponent: int)
    | JString(s: string)
    | JArray(items: seq<Value>)
    | JObject(members: map<string, Value>)
    | KList(elems: seq<Value>)
    | KMap(entries: map<string, Value>)
    | Opaque(id: nat)

  type JsonObject = map<string, Value>
  type JsonArray = seq<Value>

  /** A value built from JSON values only, as a parser produces. */
  predicate IsJson(v: Value)
  {
    match v
    case JArray(items) => forall i :: 0 <= i < |items| ==> IsJson(items[i])
    case JObject(members) => forall k :: k in members ==> IsJson(members[k])
    case KList(_) => false
    case KMap(_) => false
    case Opaque(_) => false
    case _ => true
  }

  /** A value with no `JSONArray` or `JSONObject` anywhere inside it. */
  predicate IsPlain(v: Value)
  {
    match v
    case JArray(_) => false
    case JObject(_) => false
    case KList(elems) => forall i :: 0 <= i < |elems| ==> IsPlain(elems[i])
    case KMap(entries) => forall k :: k in entries ==> IsPlain(entries[k])
    case _ => true
  }

  // ---------------------------------------------------------------------------
  // getJsonObject

  /**
   * `getJsonObject(value, defaultNull)`. `parse` stands for the
   * `JSONObject(String)` constructor, `None` for the exception it throws.
   * Null, empty or unparseable text gives null when `defaultNull` holds and
   * an empty object otherwise.
   */
  function GetJsonObject(value: Option<string>, defaultNull: bool, parse: string -> Option<JsonObject>): (r: Option<JsonObject>)
    ensures value.Some? && value.value != "" && parse(value.value).Some? ==> r == parse(value.value)
    ensures value.None? || value.value == "" || parse(value.value).None? ==>
      r == if defaultNull then None else Some(map[])
    ensures !defaultNull ==> r.Some?
  {
    if value.Some? && value.value != "" && parse(value.value).Some? then parse(value.value)
    else if defaultNull then None
    else Some(map[])
  }

  // ---------------------------------------------------------------------------
  // getJsonArrayStr

  /**
   * `JSONArray.optString(i)` of an element: a string as it is, any other
   * value through its `toString()`, which `render` stands for.
   */
  function OptString(v: Value, render: Value -> string): string
  {
    if v.JString? then v.s else render(v)
  }

  function OptStrings(items: JsonArray, render: Value -> string): (parts: seq<string>)
    ensures |parts| == |items|
    ensures forall i :: 0 <= i < |items| ==> parts[i] == OptString(items[i], render)
  {
    seq(|items|, i requires 0 <= i < |items| => OptString(items[i], render))
  }

  /** The parts in order with `sep` between each two consecutive ones. */
  function Join(parts: seq<string>, sep: string): string
  {
    if |parts| == 0 then ""
    else if |parts| == 1 then parts[0]
    else parts[0] + sep + Join(parts[1..], sep)
  }

  /** Appending a part after a non-empty list appends one separator and the part. */
  lemma {:induction false} JoinSnoc(parts: seq<string>, p: string, sep: string)
    requires |parts| > 0
    ensures Join(parts + [p], sep) == Join(parts, sep) + sep + p
  {
    if |parts| > 1 {
      assert (parts + [p])[1..] == parts[1..] + [p];
      JoinSnoc(parts[1..], p, sep);
    }
  }

  function TotalLength(parts: seq<string>): nat
  {
    if parts == [] then 0 else |parts[0]| + TotalLength(parts[1..])
  }

  /**
   * The joined text starts with the first part and ends with the last (no
   * leading or trailing separator), and holds exactly one separator per gap.
   */
  lemma {:induction false} JoinShape(parts: seq<string>, sep: string)
    requires |parts| > 0
    ensures parts[0] <= Join(parts, sep)
    ensures |Join(parts, sep)| == TotalLength(parts) + (|parts| - 1) * |sep|
    ensures var s, last := Join(parts, sep), parts[|parts| - 1];
      |last| <= |s| && s[|s| - |last|..] == last
  {
    var n := |parts|;
    if n > 1 {
      JoinShape(parts[1..], sep);
      var init, last := parts[..n - 1], parts[n - 1];
      JoinSnoc(init, last, sep);
      assert parts == init + [last];
    }
  }

  /**
   * `getJsonArrayStr(array, split)`: the `optString` form of each element,
   * in index order, with `split` between consecutive elements; "" for a null
   * array.
   */
  method GetJsonArrayStr(arr: Option<JsonArray>, split: string, render: Value -> string) returns (s: string)
    ensures arr.None? ==> s == ""
    ensures arr.Some? ==> s == Join(OptStrings(arr.value, render), split)
  {
    if arr.None? {
      return "";
    }
    var a := arr.value;
    ghost var parts := OptStrings(a, render);
    var builder := "";
    for i := 0 to |a|
      invariant i == 0 ==> builder == ""
      invariant 0 < i ==> builder == Join(parts[..i], split) + (if i < |a| then split else "")
    {
      if i > 0 {
        JoinSnoc(parts[..i], parts[i], split);
        assert parts[..i + 1] == parts[..i] + [parts[i]];
      }
      builder := builder + OptString(a[i], render);
      if i != |a| - 1 {
        builder := builder + split;
      }
    }
    assert parts[..|a|] == parts;
    s := builder;
  }

  // ---------------------------------------------------------------------------
  // json2Map and map2Json

  /** The entries of `m` whose key is not the empty string. */
  function WithoutEmptyKeys(m: map<string, Value>): (r: map<string, Value>)
    ensures forall k :: k in r <==> k in m && k != ""
    ensures forall k :: k in r ==> r[k] == m[k]
  {
    map k | k in m && k != "" :: m[k]
  }

  /** `JSONObject.opt(key)`: the member's value, or null when there is none. */
  function Opt(obj: JsonObject, key: string): (r: Option<Value>)
    ensures r.Some? <==> key in obj
    ensures r.Some? ==> r.value == obj[key]
  {
    if key in obj then Some(obj[key]) else None
  }

  /**
   * `json2Map(JSONObject?)`: null for a null object; otherwise a map holding
   * each member whose key is non-empty, with its value unchanged (nested
   * arrays and objects are not converted).
   */
  method Json2Map(json: Option<JsonObject>) returns (r: Option<map<string, Value>>)
    ensures r.None? <==> json.None?
    ensures json.Some? ==> r.value == WithoutEmptyKeys(json.value)
  {
    if json.None? {
      return None;
    }
    var obj := json.value;
    var m: map<string, Value> := map[];
    var keys := obj.Keys;
    while keys != {}
      invariant keys <= obj.Keys
      invariant forall k :: k in m <==> k in obj && k !in keys && k != ""
      invariant forall k :: k in m ==> m[k] == obj[k]
      decreases keys
    {
      var key :| key in keys;
      keys := keys - {key};
      var value := Opt(obj, key);
      if key != "" && value.Some? {
        m := m[key := value.value];
      }
    }
    return Some(m);
  }

  /**
   * `json2Map(String?)`: null for null or empty text and for text `parse`
   * rejects; otherwise `json2Map` of the parsed object.
   */
  method Json2MapText(json: Option<string>, parse: string -> Option<JsonObject>) returns (r: Option<map<string, Value>>)
    ensures json.None? || json.value == "" ==> r.None?
    ensures json.Some? && json.value != "" ==>
      (r.Some? <==> parse(json.value).Some?)
    ensures r.Some? ==> r.value == WithoutEmptyKeys(parse(json.value).value)
  {
    if json.None? || json.value == "" {
      return None;
    }
    var parsed := parse(json.value);
    if parsed.None? {
      return None;
    }
    r := Json2Map(parsed);
  }

  /**
   * `map2Json(map)`: null for a null map; otherwise an object holding each
   * entry whose key is non-empty. `accepts` stands for `JSONObject.put`
   * succeeding: a rejected put throws, which ends the loop, and the object
   * filled so far is returned. When every put succeeds the object holds
   * exactly the non-empty-key entries.
   */
  method Map2Json(m: Option<map<string, Value>>, accepts: (string, Value) -> bool) returns (r: Option<JsonObject>)
    ensures r.None? <==> m.None?
    ensures m.Some? ==> forall k :: k in r.value ==> k in WithoutEmptyKeys(m.value) && r.value[k] == m.value[k]
    ensures m.Some? && (forall k :: k in m.value && k != "" ==> accepts(k, m.value[k])) ==>
      r.value == WithoutEmptyKeys(m.value)
  {
    if m.None? {
      return None;
    }
    var entries := m.value;
    var obj: JsonObject := map[];
    var keys := entries.Keys;
    while keys != {}
      invariant keys <= entries.Keys
      invariant forall k :: k in obj ==> k in entries && k != "" && obj[k] == entries[k]
      invariant forall k :: k in entries && k != "" && k !in keys && accepts(k, entries[k]) ==> k in obj
      invariant (forall k :: k in entries && k != "" ==> accepts(k, entries[k])) ==>
        forall k :: k in entries && k != "" && k !in keys ==> k in obj
      decreases keys
    {
      var key :| key in keys;
      keys := keys - {key};
      if key != "" {
        if !accepts(key, entries[key]) {
          break;
        }
        obj := obj[key := entries[key]];
      }
    }
    return Some(obj);
  }

  /**
   * When every `put` succeeds, `json2Map(map2Json(m))` gives back the entries
   * of `m` with a non-empty key. A rejected `put` leaves a partly filled
   * object, as `Map2Json` states.
   */
  method MapRoundTrip(m: map<string, Value>, accepts: (string, Value) -> bool) returns (back: Option<map<string, Value>>)
    requires forall k :: k in m && k != "" ==> accepts(k, m[k])
    ensures back == Some(WithoutEmptyKeys(m))
  {
    var obj := Map2Json(Some(m), accepts);
    back := Json2Map(obj);
    assert WithoutEmptyKeys(WithoutEmptyKeys(m)) == WithoutEmptyKeys(m);
  }

  // ---------------------------------------------------------------------------
  // toSimpleMap and toSimpleArray

  /**
   * What `toSimpleMap` and `toSimpleArray` store for a value: a `JSONArray`
   * becomes a list and a `JSONObject` a map, each converted in turn; any
   * other value is kept.
   */
  function Simplify(v: Value): (r: Value)
    ensures !v.JArray? && !v.JObject? ==> r == v
    ensures v.JArray? ==> r.KList? && |r.elems| == |v.items|
    ensures v.JObject? ==> r.KMap? && r.entries.Keys == v.members.Keys
  {
    match v
    case JArray(items) => KList(seq(|items|, i requires 0 <= i < |items| => Simplify(items[i])))
    case JObject(members) => KMap(map k | k in members :: Simplify(members[k]))
    case _ => v
  }

  /** Converting a JSON value leaves no `JSONArray` or `JSONObject` at any depth. */
  lemma {:induction false} SimplifyIsPlain(v: Value)
    requires IsJson(v)
    ensures IsPlain(Simplify(v))
  {
    match v
    case JArray(items) =>
      forall i | 0 <= i < |items| ensures IsPlain(Simplify(items[i])) {
        SimplifyIsPlain(items[i]);
      }
    case JObject(members) =>
      forall k | k in members ensures IsPlain(Simplify(members[k])) {
        SimplifyIsPlain(members[k]);
      }
    case _ =>
  }

  /** Turns lists back into JSON arrays and maps into JSON objects, at every depth. */
  function Jsonify(v: Value): Value
  {
    match v
    case KList(elems) => JArray(seq(|elems|, i requires 0 <= i < |elems| => Jsonify(elems[i])))
    case KMap(entries) => JObject(map k | k in entries :: Jsonify(entries[k]))
    case _ => v
  }

  /** The conversion loses nothing: a JSON value can be rebuilt from its plain form. */
  lemma {:induction false} SimplifyLosesNothing(v: Value)
    requires IsJson(v)
    ensures Jsonify(Simplify(v)) == v
  {
    match v
    case JArray(items) =>
      forall i | 0 <= i < |items| ensures Jsonify(Simplify(items[i])) == items[i] {
        SimplifyLosesNothing(items[i]);
      }
      assert Jsonify(Simplify(v)).items == items;
    case JObject(members) =>
      forall k | k in members ensures Jsonify(Simplify(members[k])) == members[k] {
        SimplifyLosesNothing(members[k]);
      }
      assert Jsonify(Simplify(v)).members == members;
    case _ =>
  }

  /**
   * `JSONObject?.toSimpleMap()`: an empty map for null; otherwise the same
   * keys, each with its value converted by `Simplify`.
   */
  method ToSimpleMap(obj: Option<JsonObject>) returns (r: map<string, Value>)
    ensures obj.None? ==> r == map[]
    ensures obj.Some? ==> r.Keys == obj.value.Keys
    ensures obj.Some? ==> forall k :: k in r ==> r[k] == Simplify(obj.value[k])
    decreases if obj.Some? then JObject(obj.value) else JNull
  {
    r := map[];
    if obj.None? {
      return;
    }
    var o := obj.value;
    var keys := o.Keys;
    while keys != {}
      invariant keys <= o.Keys
      invariant r.Keys == o.Keys - keys
      invariant forall k :: k in r ==> r[k] == Simplify(o[k])
      decreases keys
    {
      var key :| key in keys;
      keys := keys - {key};
      var value := o[key];
      if value.JArray? {
        var list := ToSimpleArray(Some(value.items));
        value := KList(list);
      } else if value.JObject? {
        var m := ToSimpleMap(Some(value.members));
        value := KMap(m);
      }
      r := r[key := value];
    }
  }

  /**
   * `JSONArray?.toSimpleArray()`: an empty list for null; otherwise a list
   * of the same length whose element i is element i converted by `Simplify`.
   */
  method ToSimpleArray(arr: Option<JsonArray>) returns (r: seq<Value>)
    ensures arr.None? ==> r == []
    ensures arr.Some? ==> |r| == |arr.value|
    ensures arr.Some? ==> forall i :: 0 <= i < |r| ==> r[i] == Simplify(arr.value[i])
    decreases if arr.Some? then JArray(arr.value) else JNull
  {
    r := [];
    if arr.None? {
      return;
    }
    var a := arr.value;
    for i := 0 to |a|
      invariant |r| == i
      invariant forall j :: 0 <= j < i ==> r[j] == Simplify(a[j])
    {
      var value := a[i];
      if value.JArray? {
        var list := ToSimpleArray(Some(value.items));
        value := KList(list);
      } else if value.JObject? {
        var m := ToSimpleMap(Some(value.members));
        value := KMap(m);
      }
      r := r + [value];
    }
  }

  // ---------------------------------------------------------------------------
  // toList and toJSONArray

  /**
   * The elements `toList` collects: each element the cast `as? T` accepts,
   * in array order. `cast` stands for that cast, `None` for its null result.
   */
  function Collected<T>(items: JsonArray, cast: Value -> Option<T>): (r: seq<T>)
    ensures |r| <= |items|
  {
    if items == [] then []
    else
      var last := items[|items| - 1];
      Collected(items[..|items| - 1], cast) + (match cast(last) case Some(x) => [x] case None => [])
  }

  /** Collecting keeps order: the elements of a concatenation are those of each part, in turn. */
  lemma {:induction false} CollectedAppend<T>(a: JsonArray, b: JsonArray, cast: Value -> Option<T>)
    ensures Collected(a + b, cast) == Collected(a, cast) + Collected(b, cast)
  {
    if b == [] {
      assert a + b == a;
    } else {
      var init := b[..|b| - 1];
      assert (a + b)[..|a + b| - 1] == a + init;
      CollectedAppend(a, init, cast);
    }
  }

  /**
   * `T` is not reified, so on the JVM `as? T` is unchecked and keeps every
   * element: with that cast `toList` collects the whole array.
   */
  lemma {:induction false} CollectedErased(items: JsonArray)
    ensures Collected(items, (v: Value) => Some(v)) == items
  {
    if items != [] {
      CollectedErased(items[..|items| - 1]);
    }
  }

  /**
   * `JSONArray?.toList()`: null for a null array, and null rather than an
   * empty list when nothing is collected; otherwise the collected elements.
   */
  method ToList<T>(arr: Option<JsonArray>, cast: Value -> Option<T>) returns (r: Option<seq<T>>)
    ensures arr.None? ==> r.None?
    ensures arr.Some? && Collected(arr.value, cast) == [] ==> r.None?
    ensures arr.Some? && Collected(arr.value, cast) != [] ==> r == Some(Collected(arr.value, cast))
  {
    if arr.None? {
      return None;
    }
    var a := arr.value;
    var list: seq<T> := [];
    for i := 0 to |a|
      invariant list == Collected(a[..i], cast)
    {
      assert a[..i + 1][..i] == a[..i];
      match cast(a[i]) {
        case Some(data) => list := list + [data];
        case None =>
      }
    }
    assert a[..|a|] == a;
    if list != [] {
      return Some(list);
    }
    return None;
  }

  /**
   * `List<*>?.toJSONArray()`: null for a null list; otherwise an array of the
   * same length whose element i is list element i.
   */
  method ToJSONArray(list: Option<seq<Value>>) returns (r: Option<JsonArray>)
    ensures r.None? <==> list.None?
    ensures list.Some? ==> |r.value| == |list.value|
    ensures list.Some? ==> forall i :: 0 <= i < |list.value| ==> r.value[i] == list.value[i]
  {
    if list.None? {
      return None;
    }
    var l := list.value;
    var arr: JsonArray := [];
    for i := 0 to |l|
      invariant arr == l[..i]
    {
      arr := arr + [l[i]];
    }
    return Some(arr);
  }

  /**
   * `toJSONArray` then `toList` (with the erased cast) gives the list back,
   * except that an empty list comes back as null.
   */
  method ListRoundTrip(list: seq<Value>) returns (back: Option<seq<Value>>)
    ensures list == [] ==> back.None?
    ensures list != [] ==> back == Some(list)
  {
    var arr := ToJSONArray(Some(list));
    assert arr.value == list;
    CollectedErased(list);
    back := ToList(arr, (v: Value) => Some(v));
  }
}
