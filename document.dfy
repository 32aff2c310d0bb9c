/** The validated document: a JSON value as the Python code sees it after
    `json.load`, the records the object walker yields, and Python's `str()`
    of a value (used in the texts of validation messages). */
module Document {
  import opened Base

  /** A JSON value. An object is an association list that keeps the order
      of its members, as a Python dict keeps insertion order. */
  datatype Value =
    | Null
    | Bool(b: bool)
    | Num(n: int)
    | Str(s: string)
    | List(items: seq<Value>)
    | Obj(members: seq<Member>)

  datatype Member = Member(key: string, val: Value)

  /** One step of a path from the document root: a field name or a list index. */
  datatype PathElem = Key(name: string) | Index(i: nat)

  /** One record yielded by the object walker: its class, its identifier
      (`Null` when it has none), its own fields and its path from the root. */
  datatype Record = Record(className: string, identifier: Value, data: seq<Member>, path: seq<PathElem>)

  /** The value stored under `key`; the first member wins. */
  function Lookup(members: seq<Member>, key: string): (r: Option<Value>)
    ensures r.None? <==> forall k :: 0 <= k < |members| ==> members[k].key != key
    ensures r.Some? ==> exists k :: 0 <= k < |members| && members[k] == Member(key, r.value)
  {
    if members == [] then None
    else if members[0].key == key then Some(members[0].val)
    else
      var r := Lookup(members[1..], key);
      assert r.Some? ==> exists k :: 0 <= k < |members| - 1 && members[1..][k] == Member(key, r.value);
      r
  }

  /** Python's `v[key]` with a string key: a dict lookup, a `KeyError` when
      the key is absent, and a `TypeError` on any value that is not a dict. */
  function Subscript(v: Value, key: string): (r: Result<Value>)
    ensures r.Ok? <==> v.Obj? && Lookup(v.members, key).Some?
    ensures r.Ok? ==> r.value == Lookup(v.members, key).value
    ensures r.Err? ==> r.error == (if v.Obj? then KeyError else TypeError)
  {
    if !v.Obj? then Err(TypeError)
    else match Lookup(v.members, key)
      case Some(x) => Ok(x)
      case None => Err(KeyError)
  }

  /** Python truthiness of a JSON value. */
  predicate Truthy(v: Value) {
    match v
    case Null => false
    case Bool(b) => b
    case Num(n) => n != 0
    case Str(s) => s != ""
    case List(items) => items != []
    case Obj(members) => members != []
  }

  function DigitChar(d: nat): char
    requires d < 10
  {
    "0123456789"[d]
  }

  /** Decimal rendering of a natural number, without leading zeros. */
  function NatToString(n: nat): (r: string)
    ensures |r| >= 1
    ensures forall k :: 0 <= k < |r| ==> '0' <= r[k] <= '9'
  {
    if n < 10 then [DigitChar(n)] else NatToString(n / 10) + [DigitChar(n % 10)]
  }

  /** Python's `str()` of an integer. */
  function IntToString(i: int): string {
    if i < 0 then "-" + NatToString(-i) else NatToString(i)
  }

  /** Python's `str()` of a JSON value. Strings inside a list or dict are
      shown by their `repr()`, as Python does. */
  function PyStr(v: Value): string
    decreases v, 1, 0
  {
    match v
    case Null => "None"
    case Bool(b) => if b then "True" else "False"
    case Num(n) => IntToString(n)
    case Str(s) => s
    case List(items) => "[" + ItemsRepr(v, 0) + "]"
    case Obj(members) => "{" + MembersRepr(v, 0) + "}"
  }

  /** Python's `repr()` of a JSON value (quotes are not escaped). */
  function PyRepr(v: Value): string
    decreases v, 2, 0
  {
    if v.Str? then "'" + v.s + "'" else PyStr(v)
  }

  function ItemsRepr(v: Value, i: nat): string
    requires v.List? && i <= |v.items|
    decreases v, 0, |v.items| - i
  {
    if i == |v.items| then ""
    else (if i == 0 then "" else ", ") + PyRepr(v.items[i]) + ItemsRepr(v, i + 1)
  }

  function MembersRepr(v: Value, i: nat): string
    requires v.Obj? && i <= |v.members|
    decreases v, 0, |v.members| - i
  {
    if i == |v.members| then ""
    else
      var m := v.members[i];
      assert m.val < v by { assert m in v.members; }
      (if i == 0 then "" else ", ") + "'" + m.key + "': " + PyRepr(m.val) + MembersRepr(v, i + 1)
  }
}
