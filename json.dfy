/**
 * The JavaScript values that `JSON.parse` produces, with the few operations
 * the application applies to them: property access, truthiness, object
 * spread (`{ pub, ...parsed }`) and the string a value becomes when it is
 * used as a property key.
 */
module JsonValue {
  import opened Wrappers
  import Text

  /** A parsed JSON value; numbers are restricted to integers. */
  datatype Json =
    | JNull
    | JBool(b: bool)
    | JNum(n: int)
    | JStr(s: string)
    | JArr(items: seq<Json>)
    | JObj(fields: seq<(string, Json)>)

  type Fields = seq<(string, Json)>

  /** The value bound to `key`; the last binding wins, as in `JSON.parse`. */
  function Lookup(fs: Fields, key: string): (r: Option<Json>)
    ensures r.Some? <==> exists i :: 0 <= i < |fs| && fs[i].0 == key
    ensures r.Some? ==> exists i :: 0 <= i < |fs| && fs[i] == (key, r.value)
  {
    if fs == [] then None
    else if fs[|fs| - 1].0 == key then Some(fs[|fs| - 1].1)
    else
      var r := Lookup(fs[..|fs| - 1], key);
      assert forall i :: 0 <= i < |fs| - 1 ==> fs[..|fs| - 1][i] == fs[i];
      r
  }

  /** `v[key]`: `None` stands for `undefined`, which is all a non-object gives here. */
  function Get(v: Json, key: string): Option<Json>
  {
    if v.JObj? then Lookup(v.fields, key) else None
  }

  /** JavaScript truthiness of a property value (`undefined` is `None`). */
  predicate Truthy(v: Option<Json>)
  {
    match v
    case None => false
    case Some(JNull) => false
    case Some(JBool(b)) => b
    case Some(JNum(n)) => n != 0
    case Some(JStr(s)) => s != []
    case Some(_) => true
  }

  /**
   * `o[key] = value` on an object literal: an existing key keeps its
   * position and takes the new value; a new key goes at the end.
   */
  function Put(fs: Fields, key: string, value: Json): (r: Fields)
    ensures Lookup(r, key) == Some(value)
    ensures forall k :: k != key ==> Lookup(r, k) == Lookup(fs, k)
    ensures |r| == |fs| || |r| == |fs| + 1
  {
    if exists i :: 0 <= i < |fs| && fs[i].0 == key then
      var r := seq(|fs|, i requires 0 <= i < |fs| => if fs[i].0 == key then (key, value) else fs[i]);
      PutInPlace(fs, key, value, r);
      r
    else
      LookupAppend(fs, key, value);
      fs + [(key, value)]
  }

  lemma {:induction false} PutInPlace(fs: Fields, key: string, value: Json, r: Fields)
    requires exists i :: 0 <= i < |fs| && fs[i].0 == key
    requires |r| == |fs|
    requires forall i :: 0 <= i < |fs| ==> r[i] == if fs[i].0 == key then (key, value) else fs[i]
    ensures Lookup(r, key) == Some(value)
    ensures forall k :: k != key ==> Lookup(r, k) == Lookup(fs, k)
  {
    var n := |fs|;
    if fs[n - 1].0 != key {
      var j :| 0 <= j < n && fs[j].0 == key;
      assert fs[..n - 1][j].0 == key;
      PutInPlace(fs[..n - 1], key, value, r[..n - 1]);
    } else if n > 1 {
      forall k | k != key
        ensures Lookup(r, k) == Lookup(fs, k)
      {
        if exists i :: 0 <= i < n - 1 && fs[i].0 == key {
          PutInPlace(fs[..n - 1], key, value, r[..n - 1]);
        } else {
          LookupUntouched(fs[..n - 1], r[..n - 1], k);
        }
      }
    }
  }

  lemma {:induction false} LookupUntouched(fs: Fields, r: Fields, k: string)
    requires |r| == |fs|
    requires forall i :: 0 <= i < |fs| ==> r[i].0 == fs[i].0
    requires forall i :: 0 <= i < |fs| && fs[i].0 == k ==> r[i] == fs[i]
    ensures Lookup(r, k) == Lookup(fs, k)
  {
    if fs != [] {
      LookupUntouched(fs[..|fs| - 1], r[..|r| - 1], k);
    }
  }

  /** A key bound exactly once is looked up at its one binding. */
  lemma {:induction false} LookupUnique(fs: Fields, i: nat)
    requires i < |fs|
    requires forall j :: 0 <= j < |fs| && j != i ==> fs[j].0 != fs[i].0
    ensures Lookup(fs, fs[i].0) == Some(fs[i].1)
  {
    if i < |fs| - 1 {
      LookupUnique(fs[..|fs| - 1], i);
    }
  }

  lemma LookupAppend(fs: Fields, key: string, value: Json)
    ensures Lookup(fs + [(key, value)], key) == Some(value)
    ensures forall k :: k != key ==> Lookup(fs + [(key, value)], k) == Lookup(fs, k)
  {
    assert (fs + [(key, value)])[..|fs|] == fs;
  }

  /** `Object.assign`-style copying of `src`'s bindings, in order, onto `fs`. */
  function Assign(fs: Fields, src: Fields): (r: Fields)
    ensures forall k :: Lookup(src, k).Some? ==> Lookup(r, k) == Lookup(src, k)
    ensures forall k :: Lookup(src, k).None? ==> Lookup(r, k) == Lookup(fs, k)
  {
    if src == [] then fs
    else
      var last := src[|src| - 1];
      var r := Put(Assign(fs, src[..|src| - 1]), last.0, last.1);
      assert forall k :: k != last.0 ==> Lookup(src, k) == Lookup(src[..|src| - 1], k);
      r
  }

  /**
   * The own enumerable properties that spreading `v` copies: an object's
   * bindings, an array's or a string's elements under their decimal indices,
   * and nothing for `null`, booleans and numbers.
   */
  function OwnEntries(v: Json): Fields
  {
    match v
    case JObj(fs) => fs
    case JArr(items) => seq(|items|, i requires 0 <= i < |items| => (Text.NatToString(i, 10), items[i]))
    case JStr(s) => seq(|s|, i requires 0 <= i < |s| => (Text.NatToString(i, 10), JStr([s[i]])))
    case _ => []
  }

  /** `{ [key]: JStr(value), ...v }`. */
  function SpreadAfter(key: string, value: string, v: Json): (r: Fields)
    ensures Lookup(r, key) == Some(Lookup(OwnEntries(v), key).GetOr(JStr(value)))
    ensures forall k :: k != key ==> Lookup(r, k) == Lookup(OwnEntries(v), k)
  {
    Assign([(key, JStr(value))], OwnEntries(v))
  }

  /** `String(v)` for a value used as a property key, `undefined` included. */
  function KeyString(v: Option<Json>): string
  {
    match v
    case None => "undefined"
    case Some(j) => ToJsString(j)
  }

  function ToJsString(j: Json): string
  {
    match j
    case JNull => "null"
    case JBool(b) => if b then "true" else "false"
    case JNum(n) => if n < 0 then "-" + Text.NatToString(-n, 10) else Text.NatToString(n, 10)
    case JStr(s) => s
    case JArr(items) => Join(seq(|items|, i requires 0 <= i < |items| => if items[i].JNull? then "" else ToJsString(items[i])))
    case JObj(_) => "[object Object]"
  }

  /** `Array.prototype.join` with the default separator. */
  function Join(parts: seq<string>): string
  {
    if parts == [] then ""
    else if |parts| == 1 then parts[0]
    else parts[0] + "," + Join(parts[1..])
  }
}
