/**
 * JSON-like values: the dictionaries that the `to_dict` methods build and the
 * `from_dict` methods read.  Timestamps are carried as integers (seconds); the
 * text format of `isoformat`/`strftime` is not part of this model.
 */
module Json {
  import opened Wrappers

  datatype Json =
    | JNull
    | JBool(b: bool)
    | JInt(i: int)
    | JReal(r: real)
    | JStr(s: string)
    | JArr(items: seq<Json>)
    | JObj(fields: map<string, Json>)

  function StrItems(xs: seq<string>): (r: seq<Json>)
    ensures |r| == |xs|
  {
    if xs == [] then [] else [JStr(xs[0])] + StrItems(xs[1..])
  }

  /** A list of strings, as `list(...)` then `json.dump` writes it. */
  function Strs(xs: seq<string>): Json { JArr(StrItems(xs)) }

  function AsStrItems(items: seq<Json>): Option<seq<string>> {
    if items == [] then Some([])
    else if !items[0].JStr? then None
    else match AsStrItems(items[1..])
      case None => None
      case Some(rest) => Some([items[0].s] + rest)
  }

  function AsStrs(j: Json): Option<seq<string>> {
    if j.JArr? then AsStrItems(j.items) else None
  }

  lemma {:induction false} AsStrItemsStrItems(xs: seq<string>)
    ensures AsStrItems(StrItems(xs)) == Some(xs)
  {
    if xs != [] {
      AsStrItemsStrItems(xs[1..]);
      var items := StrItems(xs);
      assert items[0] == JStr(xs[0]) && items[1..] == StrItems(xs[1..]);
      assert [xs[0]] + xs[1..] == xs;
    }
  }

  lemma AsStrsStrs(xs: seq<string>)
    ensures AsStrs(Strs(xs)) == Some(xs)
  {
    AsStrItemsStrItems(xs);
  }

  /** A dictionary with string values. */
  function StrMap(m: map<string, string>): Json {
    JObj(map k | k in m :: JStr(m[k]))
  }

  function AsStrMap(j: Json): Option<map<string, string>> {
    if j.JObj? && forall k :: k in j.fields ==> j.fields[k].JStr? then
      Some(map k | k in j.fields :: j.fields[k].s)
    else None
  }

  lemma AsStrMapStrMap(m: map<string, string>)
    ensures AsStrMap(StrMap(m)) == Some(m)
  {
    var f := StrMap(m).fields;
    assert forall k :: k in f ==> f[k].JStr?;
    assert (map k | k in f :: f[k].s) == m;
  }

  /** An optional integer (a timestamp that may be `None`). */
  function OptInt(o: Option<int>): Json {
    if o.Some? then JInt(o.value) else JNull
  }

  function AsOptInt(j: Json): Option<Option<int>> {
    match j
    case JNull => Some(None)
    case JInt(i) => Some(Some(i))
    case _ => None
  }

  /** A list whose items are encoded one by one with `enc`. */
  function Items<T>(xs: seq<T>, enc: T -> Json): (r: seq<Json>)
    ensures |r| == |xs|
  {
    if xs == [] then [] else [enc(xs[0])] + Items(xs[1..], enc)
  }

  function AsItems<T>(items: seq<Json>, dec: Json -> Option<T>): Option<seq<T>> {
    if items == [] then Some([])
    else match (dec(items[0]), AsItems(items[1..], dec))
      case (Some(x), Some(rest)) => Some([x] + rest)
      case _ => None
  }

  lemma {:induction false} AsItemsItems<T>(xs: seq<T>, enc: T -> Json, dec: Json -> Option<T>)
    requires forall i :: 0 <= i < |xs| ==> dec(enc(xs[i])) == Some(xs[i])
    ensures AsItems(Items(xs, enc), dec) == Some(xs)
  {
    if xs != [] {
      AsItemsItems(xs[1..], enc, dec);
      assert Items(xs, enc)[1..] == Items(xs[1..], enc);
      assert [xs[0]] + xs[1..] == xs;
    }
  }

  /** A dictionary whose values are encoded one by one with `enc`. */
  function ObjOf<T>(m: map<string, T>, enc: T -> Json): Json {
    JObj(map k | k in m :: enc(m[k]))
  }

  function AsObjOf<T>(j: Json, dec: Json -> Option<T>): Option<map<string, T>> {
    if j.JObj? && forall k :: k in j.fields ==> dec(j.fields[k]).Some? then
      Some(map k | k in j.fields :: dec(j.fields[k]).value)
    else None
  }

  lemma AsObjOfObjOf<T>(m: map<string, T>, enc: T -> Json, dec: Json -> Option<T>)
    requires forall k :: k in m ==> dec(enc(m[k])) == Some(m[k])
    ensures AsObjOf(ObjOf(m, enc), dec) == Some(m)
  {
    var f := ObjOf(m, enc).fields;
    assert forall k :: k in f ==> dec(f[k]).Some?;
    assert (map k | k in f :: dec(f[k]).value) == m;
  }

  function GetStr(m: map<string, Json>, key: string): Option<string> {
    if key in m && m[key].JStr? then Some(m[key].s) else None
  }

  function GetInt(m: map<string, Json>, key: string): Option<int> {
    if key in m && m[key].JInt? then Some(m[key].i) else None
  }

  function GetReal(m: map<string, Json>, key: string): Option<real> {
    if key in m && m[key].JReal? then Some(m[key].r) else None
  }

  function GetBool(m: map<string, Json>, key: string): Option<bool> {
    if key in m && m[key].JBool? then Some(m[key].b) else None
  }
}
