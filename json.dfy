/** The JSON-like values that the `to_dict`/`from_dict` pairs exchange, and
    the `dict.get(key, default)` readers they use. A value of the wrong type
    under a key is read as the default. */
module Json {
  import opened Common

  datatype Value =
    | Null
    | Bool(b: bool)
    | Int(i: int)
    | Real(r: real)
    | Str(s: string)
    | Arr(items: seq<Value>)
    | Obj(fields: map<string, Value>)
      /** A dict whose key order matters (a record read back keeps it). */
    | Pairs(entries: seq<(string, Value)>)

  type Dict = map<string, Value>

  function GetStr(d: Dict, k: string, default: string): (r: string)
    ensures k in d && d[k].Str? ==> r == d[k].s
    ensures k !in d ==> r == default
  {
    if k in d && d[k].Str? then d[k].s else default
  }

  function GetBool(d: Dict, k: string, default: bool): (r: bool)
    ensures k in d && d[k].Bool? ==> r == d[k].b
    ensures k !in d ==> r == default
  {
    if k in d && d[k].Bool? then d[k].b else default
  }

  function GetInt(d: Dict, k: string, default: int): (r: int)
    ensures k in d && d[k].Int? ==> r == d[k].i
    ensures k !in d ==> r == default
  {
    if k in d && d[k].Int? then d[k].i else default
  }

  /** `float(d.get(k, default))`: an integer value is widened to a real. */
  function GetReal(d: Dict, k: string, default: real): (r: real)
    ensures k in d && d[k].Real? ==> r == d[k].r
    ensures k in d && d[k].Int? ==> r == d[k].i as real
    ensures k !in d ==> r == default
  {
    if k in d && d[k].Real? then d[k].r
    else if k in d && d[k].Int? then d[k].i as real
    else default
  }

  /** A stored string or `None` (JSON null or a missing key). */
  function GetOptStr(d: Dict, k: string): (r: Option<string>)
    ensures k in d && d[k].Str? ==> r == Some(d[k].s)
    ensures k !in d ==> r == None
  {
    if k in d && d[k].Str? then Some(d[k].s) else None
  }

  function OptStrValue(o: Option<string>): (v: Value)
    ensures o.None? <==> v.Null?
  {
    if o.Some? then Str(o.value) else Null
  }

  function StrList(xs: seq<string>): (v: Value)
    ensures v.Arr? && |v.items| == |xs|
  {
    Arr(seq(|xs|, i requires 0 <= i < |xs| => Str(xs[i])))
  }

  /** The strings of a stored list; non-string items are dropped. */
  function AsStrings(items: seq<Value>): (r: seq<string>)
    ensures |r| <= |items|
  {
    if items == [] then []
    else (if items[0].Str? then [items[0].s] else []) + AsStrings(items[1..])
  }

  lemma {:induction false} AsStringsStrList(xs: seq<string>)
    ensures AsStrings(StrList(xs).items) == xs
  {
    if xs != [] {
      assert StrList(xs).items[1..] == StrList(xs[1..]).items;
      AsStringsStrList(xs[1..]);
    }
  }

  function GetStrList(d: Dict, k: string, default: seq<string>): (r: seq<string>)
    ensures k !in d ==> r == default
  {
    if k in d && d[k].Arr? then AsStrings(d[k].items) else default
  }

  lemma GetStrListOf(d: Dict, k: string, xs: seq<string>, default: seq<string>)
    requires k in d && d[k] == StrList(xs)
    ensures GetStrList(d, k, default) == xs
  {
    AsStringsStrList(xs);
  }

  function GetObj(d: Dict, k: string): (r: Dict)
    ensures k in d && d[k].Obj? ==> r == d[k].fields
    ensures k !in d ==> r == map[]
  {
    if k in d && d[k].Obj? then d[k].fields else map[]
  }

  function GetArr(d: Dict, k: string): (r: seq<Value>)
    ensures k in d && d[k].Arr? ==> r == d[k].items
    ensures k !in d ==> r == []
  {
    if k in d && d[k].Arr? then d[k].items else []
  }

  /** A map from strings to strings, as a JSON object. */
  function StrMap(m: map<string, string>): (v: Value)
    ensures v.Obj? && v.fields.Keys == m.Keys
  {
    Obj(map k | k in m :: Str(m[k]))
  }

  /** The string entries of a stored object. */
  function AsStrMap(d: Dict): (m: map<string, string>)
    ensures m.Keys <= d.Keys
  {
    map k | k in d && d[k].Str? :: d[k].s
  }

  lemma AsStrMapStrMap(m: map<string, string>)
    ensures AsStrMap(StrMap(m).fields) == m
  {
  }
}
