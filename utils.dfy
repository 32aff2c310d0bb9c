/** The helpers of `ghga_validator/utils.py`: list normalisation of a slot
    value, the in-place merge of two dictionaries of lists, and the rendering
    of a document path. */
module Utils {
  import opened Document

  /** `to_list`: a value that is not a list is wrapped into a one-element
      list; the list is then kept only when it is non-empty and its FIRST
      element is a dict (later elements are not inspected). */
  function ToList(v: Value): (r: seq<Value>)
    ensures !v.List? ==> r == (if v.Obj? then [v] else [])
    ensures v.List? ==> r == (if v.items != [] && v.items[0].Obj? then v.items else [])
    ensures r == [] || r == [v] || (v.List? && r == v.items)
    ensures r != [] ==> r[0].Obj?
  {
    var listOfValues := if !v.List? then [v] else v.items;
    if |listOfValues| == 0 then []
    else if !listOfValues[0].Obj? then []
    else listOfValues
  }

  /** Normalising an already normalised list changes nothing. */
  lemma ToListIdempotent(v: Value)
    ensures ToList(List(ToList(v))) == ToList(v)
  {
  }

  /** A dictionary of lists, as the plugins key their tables by class name. */
  type ListTable = map<string, seq<Value>>

  /** Reading a `defaultdict(list)`: a missing key reads as the empty list. */
  function ListAt(table: ListTable, key: string): seq<Value> {
    if key in table then table[key] else []
  }

  /** A dictionary whose values are lists, updated in place. */
  class ListDict {
    var entries: map<string, seq<Value>>

    constructor (entries: map<string, seq<Value>>)
      ensures this.entries == entries
    {
      this.entries := entries;
    }
  }

  /** `merge_dicts_of_list`: extends `dict1` in place with `dict2` and returns
      `dict1` itself. A key of both gets `dict1`'s list followed by `dict2`'s,
      a key only in `dict2` gets `dict2`'s list, and every other key of
      `dict1` is unchanged. */
  method MergeDictsOfList(dict1: ListDict, dict2: map<string, seq<Value>>) returns (out: ListDict)
    modifies dict1
    ensures out == dict1
    ensures dict1.entries.Keys == old(dict1.entries).Keys + dict2.Keys
    ensures forall k :: k in dict2 && k in old(dict1.entries) ==>
              dict1.entries[k] == old(dict1.entries)[k] + dict2[k]
    ensures forall k :: k in dict2 && k !in old(dict1.entries) ==> dict1.entries[k] == dict2[k]
    ensures forall k :: k in old(dict1.entries) && k !in dict2 ==>
              dict1.entries[k] == old(dict1.entries)[k]
  {
    out := dict1;
    var remaining := dict2.Keys;
    while remaining != {}
      invariant remaining <= dict2.Keys
      invariant out == dict1
      invariant dict1.entries.Keys == old(dict1.entries).Keys + (dict2.Keys - remaining)
      invariant forall k :: k in dict2 && k !in remaining && k in old(dict1.entries) ==>
                  dict1.entries[k] == old(dict1.entries)[k] + dict2[k]
      invariant forall k :: k in dict2 && k !in remaining && k !in old(dict1.entries) ==>
                  dict1.entries[k] == dict2[k]
      invariant forall k :: k in old(dict1.entries) && (k !in dict2 || k in remaining) ==>
                  dict1.entries[k] == old(dict1.entries)[k]
      decreases remaining
    {
      var key :| key in remaining;
      if key in out.entries {
        out.entries := out.entries[key := out.entries[key] + dict2[key]];
      } else {
        out.entries := out.entries[key := dict2[key]];
      }
      remaining := remaining - {key};
    }
  }

  /** Python's `str()` of one path element. */
  function ElemString(e: PathElem): string {
    match e
    case Key(name) => name
    case Index(i) => NatToString(i)
  }

  /** `path_as_string`: the path elements joined by `.`. */
  function PathAsString(path: seq<PathElem>): (r: string)
    ensures path == [] ==> r == ""
    ensures |path| == 1 ==> r == ElemString(path[0])
  {
    if path == [] then ""
    else if |path| == 1 then ElemString(path[0])
    else ElemString(path[0]) + "." + PathAsString(path[1..])
  }

  /** Joining is compositional: the rendering of a concatenated path is the
      renderings of its two halves separated by one `.`. */
  lemma {:induction false} PathAsStringConcat(p: seq<PathElem>, q: seq<PathElem>)
    requires p != [] && q != []
    ensures PathAsString(p + q) == PathAsString(p) + "." + PathAsString(q)
  {
    if |p| == 1 {
      assert (p + q)[1..] == q;
    } else {
      assert (p + q)[1..] == p[1..] + q;
      PathAsStringConcat(p[1..], q);
    }
  }

  /** Extending a path by one element appends `.` and that element. */
  lemma PathAsStringSnoc(p: seq<PathElem>, e: PathElem)
    requires p != []
    ensures PathAsString(p + [e]) == PathAsString(p) + "." + ElemString(e)
  {
    PathAsStringConcat(p, [e]);
  }
}
