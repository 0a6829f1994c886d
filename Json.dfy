/** JSON values as `JSON.parse` produces them, with the JavaScript operations the
    handlers apply to such values: property lookup (`x.key`), truthiness
    (`x || y`, `if (x)`) and string conversion (`String(x)`). Numbers are
    integers here. */
module Json {
  import opened Wrappers
  import opened Text

  datatype Json =
    | Null
    | Bool(b: bool)
    | Num(n: int)
    | Str(s: string)
    | Arr(items: seq<Json>)
    | Obj(members: seq<Member>)

  /** One `"key": value` pair of an object, in source order. */
  datatype Member = Member(key: string, value: Json)

  predicate HasKey(members: seq<Member>, key: string) {
    exists i :: 0 <= i < |members| && members[i].key == key
  }

  /** The value bound to `key`; when a key is repeated, `JSON.parse` keeps the
      last binding. */
  function Lookup(members: seq<Member>, key: string): (r: Option<Json>)
    ensures r.Some? <==> HasKey(members, key)
    ensures r.Some? ==> exists i :: 0 <= i < |members| && members[i] == Member(key, r.value)
                                 && forall k :: i < k < |members| ==> members[k].key != key
    decreases |members|
  {
    if |members| == 0 then None
    else if members[|members| - 1].key == key then Some(members[|members| - 1].value)
    else
      var r := Lookup(members[..|members| - 1], key);
      assert HasKey(members, key) ==> HasKey(members[..|members| - 1], key) by {
        if HasKey(members, key) {
          var i :| 0 <= i < |members| && members[i].key == key;
          assert members[..|members| - 1][i].key == key;
        }
      }
      assert r.Some? ==> HasKey(members, key) by {
        if r.Some? {
          var i :| 0 <= i < |members| - 1 && members[..|members| - 1][i].key == key;
          assert members[i].key == key;
        }
      }
      r
  }

  /** `x.key` for a value produced by `JSON.parse`: an object's own binding.
      None of the keys the handlers read names a property of strings, numbers,
      booleans or arrays, so on those the lookup is `undefined`. On `null` the
      lookup throws; callers check `Null?` first. */
  function Get(x: Json, key: string): Option<Json> {
    if x.Obj? then Lookup(x.members, key) else None
  }

  /** JavaScript truthiness: `null`, `false`, `0` and `""` are falsy. */
  predicate Truthy(x: Json)
    ensures Truthy(x) <==> !(x == Null || x == Bool(false) || x == Num(0) || x == Str(""))
  {
    match x
    case Null => false
    case Bool(b) => b
    case Num(n) => n != 0
    case Str(s) => s != ""
    case Arr(_) => true
    case Obj(_) => true
  }

  /** Truthiness of a possibly absent value (`undefined` is falsy). */
  predicate TruthyOpt(x: Option<Json>) {
    x.Some? && Truthy(x.value)
  }

  /** `String(x)`; `None` when the conversion throws. An object converts to
      "[object Object]" unless it has an own `toString` member: a parsed value
      there is not callable, so the conversion finds no primitive and throws a
      TypeError. An array converts to its elements' conversions joined by ",",
      with `null` elements rendered as "". */
  function ToStr(x: Json): (r: Option<string>)
    ensures x.Null? ==> r == Some("null")
    ensures x.Str? ==> r == Some(x.s)
    ensures x.Arr? && |x.items| == 0 ==> r == Some("")
    ensures x.Obj? ==> (r.None? <==> HasKey(x.members, "toString"))
    ensures x.Obj? && r.Some? ==> r.value == "[object Object]"
    decreases x
  {
    match x
    case Null => Some("null")
    case Bool(b) => Some(if b then "true" else "false")
    case Num(n) => Some(IntToDecimal(n))
    case Str(s) => Some(s)
    case Arr(items) =>
      var parts := seq(|items|, i requires 0 <= i < |items| =>
        if items[i].Null? then Some("") else ToStr(items[i]));
      if forall i :: 0 <= i < |parts| ==> parts[i].Some? then
        Some(Join(seq(|parts|, i requires 0 <= i < |parts| && parts[i].Some? => parts[i].value), ","))
      else None
    case Obj(members) =>
      if HasKey(members, "toString") then None else Some("[object Object]")
  }

  /** Only strings and arrays can convert to the empty string. */
  lemma ToStrEmpty(x: Json)
    requires ToStr(x) == Some("")
    ensures x == Str("") || x.Arr?
  {
  }
}
