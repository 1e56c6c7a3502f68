// JSON values with objects as finite maps.  The member order of a serde_json
// object is the order of its keys (see StringOrder), so a map loses nothing.
module Json {
  datatype Json =
    | Null
    | Bool(b: bool)
    | Num(n: real)
    | Str(s: string)
    | Arr(items: seq<Json>)
    | Obj(fields: map<string, Json>)

  // No object at any depth: a literal that no schema transformation can touch.
  ghost predicate Inert(j: Json) {
    match j
    case Arr(items) => forall i | 0 <= i < |items| :: Inert(items[i])
    case Obj(_) => false
    case _ => true
  }

  ghost predicate NullFree(j: Json) {
    match j
    case Null => false
    case Arr(items) => forall i | 0 <= i < |items| :: NullFree(items[i])
    case Obj(fields) => forall k | k in fields :: NullFree(fields[k])
    case _ => true
  }

  predicate HasString(o: map<string, Json>, key: string) {
    key in o && o[key].Str?
  }

  predicate HasArray(o: map<string, Json>, key: string) {
    key in o && o[key].Arr?
  }
}
