/** JSON documents. Objects are finite maps, so key order is not part of a document. */
module Json {

  datatype Json =
    | Null
    | Bool(b: bool)
    | Number(n: real)
    | Str(s: string)
    | Arr(items: seq<Json>)
    | Obj(fields: map<string, Json>)

  /** No array anywhere in the document. */
  predicate ArrayFree(doc: Json) {
    match doc
    case Arr(_) => false
    case Obj(fields) => forall k | k in fields :: ArrayFree(fields[k])
    case _ => true
  }

  const PROTO := "__proto__"

  predicate Reserved(segment: string) {
    segment == PROTO || segment == "constructor" || segment == "prototype"
  }

  /** No reserved name is a key, at any depth. */
  predicate NoReservedKeys(doc: Json) {
    match doc
    case Arr(items) => forall i | 0 <= i < |items| :: NoReservedKeys(items[i])
    case Obj(fields) => forall k | k in fields :: !Reserved(k) && NoReservedKeys(fields[k])
    case _ => true
  }
}
