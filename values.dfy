/**
 * The dynamic values the crawler passes around: Python scalars, lists and
 * dicts as they come out of JSON answers and parsed pages, the exceptions the
 * code can raise, and a mutable dict for the places where the code updates a
 * dict in place.
 */
module PyValues {
  import opened Text

  /** The exceptions the modelled code raises. */
  datatype Error =
    | KeyError(key: string)
    | IndexError
    | TypeError
    | ValueError(message: string)
    | AssertionError
    | NotImplementedError
    | AttributeError(name: string)

  datatype Result<T> = Ok(value: T) | Err(error: Error)

  /**
   * A Python value. `Float` carries the text Python prints for the number,
   * since the code only copies floats around.
   */
  datatype Value =
    | Str(s: string)
    | Int(i: int)
    | Bool(b: bool)
    | Null
    | Float(repr: string)
    | List(items: seq<Value>)
    | Mapping(entries: map<string, Value>)

  /** Python truthiness (`if not x`). */
  predicate Truthy(v: Value) {
    match v
    case Str(s) => s != ""
    case Int(i) => i != 0
    case Bool(b) => b
    case Null => false
    case Float(r) => r != "0.0" && r != "-0.0"
    case List(items) => items != []
    case Mapping(entries) => entries != map[]
  }

  /**
   * `str(v)` inside an f-string, for the scalars the code formats. Lists and
   * dicts are rendered as a fixed placeholder.
   */
  function Render(v: Value): string {
    match v
    case Str(s) => s
    case Int(i) => IntToString(i)
    case Bool(b) => if b then "True" else "False"
    case Null => "None"
    case Float(r) => r
    case List(_) => "[...]"
    case Mapping(_) => "{...}"
  }

  /** `d[key]` */
  function Lookup(d: map<string, Value>, key: string): Result<Value> {
    if key in d then Ok(d[key]) else Err(KeyError(key))
  }

  /** `v[key]` where `v` must be a dict. */
  function Field(v: Value, key: string): Result<Value> {
    if v.Mapping? then Lookup(v.entries, key) else Err(TypeError)
  }

  /** `key in v`: a key of a dict, an element of a list, a substring of a string. */
  function Has(v: Value, key: string): (r: Result<bool>)
    ensures r.Err? <==> !(v.Mapping? || v.List? || v.Str?)
    ensures v.Mapping? ==> r == Ok(key in v.entries)
  {
    match v
    case Mapping(entries) => Ok(key in entries)
    case List(items) => Ok(Str(key) in items)
    case Str(s) => Ok(Contains(s, key))
    case _ => Err(TypeError)
  }

  /** `[x] * n` */
  function Repeat<T>(x: T, n: nat): (r: seq<T>)
    ensures |r| == n && forall i :: 0 <= i < n ==> r[i] == x
  {
    seq(n, _ => x)
  }

  /** `len(v)` where `v` must be a list. */
  function Items(v: Value): Result<seq<Value>> {
    if v.List? then Ok(v.items) else Err(TypeError)
  }

  /** A Python dict that the code updates in place. */
  class Dict {
    var entries: map<string, Value>

    constructor (entries0: map<string, Value>)
      ensures entries == entries0
    {
      entries := entries0;
    }

    /** `d[key] = value` */
    method Set(key: string, value: Value)
      modifies this
      ensures entries == old(entries)[key := value]
    {
      entries := entries[key := value];
    }

    /** `d.pop(key)`: the value removed, or KeyError with the dict unchanged. */
    method Pop(key: string) returns (r: Result<Value>)
      modifies this
      ensures key in old(entries) ==> r == Ok(old(entries)[key]) && entries == old(entries) - {key}
      ensures key !in old(entries) ==> r == Err(KeyError(key)) && entries == old(entries)
    {
      if key in entries {
        r := Ok(entries[key]);
        entries := entries - {key};
      } else {
        r := Err(KeyError(key));
      }
    }
  }

  /** The objects of a list of dicts, as a frame. */
  function Objects(dicts: seq<Dict>): set<Dict> {
    set d | d in dicts
  }

  /** The dicts of `dicts` as they stand. */
  function Entries(dicts: seq<Dict>): (ms: seq<map<string, Value>>)
    reads Objects(dicts)
    ensures |ms| == |dicts| && forall i :: 0 <= i < |dicts| ==> ms[i] == dicts[i].entries
  {
    seq(|dicts|, i requires 0 <= i < |dicts| reads dicts => dicts[i].entries)
  }

  lemma EntriesConcat(a: seq<Dict>, b: seq<Dict>)
    ensures Entries(a + b) == Entries(a) + Entries(b)
  {
  }
}
