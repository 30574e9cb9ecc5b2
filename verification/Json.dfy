/** JSON values, and the lookups the documents are read with. */
module Json {
  import opened Prelude

  datatype Json =
    | Null
    | Bool(b: bool)
    | Num(n: int)
    | Str(s: string)
    | Arr(items: seq<Json>)
    | Obj(fields: map<string, Json>)

  /** The field of an object; nothing of anything else. */
  function Get(v: Json, field: string): Option<Json> {
    if v.Obj? && field in v.fields then Some(v.fields[field]) else None
  }

  function GetStr(v: Json, field: string): Option<string> {
    match Get(v, field)
    case Some(Str(s)) => Some(s)
    case _ => None
  }

  function GetBool(v: Json, field: string): Option<bool> {
    match Get(v, field)
    case Some(Bool(b)) => Some(b)
    case _ => None
  }

  function GetInt(v: Json, field: string): Option<int> {
    match Get(v, field)
    case Some(Num(n)) => Some(n)
    case _ => None
  }

  /** The fields of an object; none of anything else. */
  function Fields(v: Json): map<string, Json> {
    if v.Obj? then v.fields else map[]
  }

  /** Key and value pairs gathered into an object: of two with one key, the later stays. */
  function Collect(pairs: seq<(string, Json)>): (m: map<string, Json>)
    ensures m.Keys == set p | p in pairs :: p.0
  {
    if pairs == [] then map[]
    else
      var last := |pairs| - 1;
      assert pairs == pairs[..last] + [pairs[last]];
      Collect(pairs[..last])[pairs[last].0 := pairs[last].1]
  }

  lemma {:induction false} CollectAt(pairs: seq<(string, Json)>, i: nat)
    requires i < |pairs|
    requires forall j :: i < j < |pairs| ==> pairs[j].0 != pairs[i].0
    ensures pairs[i].0 in Collect(pairs) && Collect(pairs)[pairs[i].0] == pairs[i].1
  {
    var last := |pairs| - 1;
    if i < last {
      CollectAt(pairs[..last], i);
    }
  }
}
