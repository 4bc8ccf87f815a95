/**
 Decoded JSON values, as the policy compiler sees them behind Go's `interface{}`.

 An object keeps its members in a sequence: the order is the one in which a Go `range` over the
 map happens to visit them, so a claim about every order is a claim about every permutation.
 */
module Json {
  import opened Text

  datatype Json =
    | Null
    | Bool(flag: bool)
    | Number(number: real)
    | String(text: string)
    | Array(items: seq<Json>)
    | Object(members: seq<Member>)

  datatype Member = Member(key: string, value: Json)

  function FindMember(members: seq<Member>, key: string): (found: Option<Json>)
    ensures found.Some? ==> Member(key, found.value) in members
    ensures found.None? ==> forall m :: m in members ==> m.key != key
  {
    if members == [] then None
    else if members[0].key == key then Some(members[0].value)
    else FindMember(members[1..], key)
  }

  /** The value of member `key`, as in Go's `value, ok := object[key]`. */
  function Field(obj: Json, key: string): (found: Option<Json>)
    requires obj.Object?
    ensures found.Some? ==> found.value < obj
    ensures found.Some? ==> Member(key, found.value) in obj.members
  {
    FindMember(obj.members, key)
  }

  predicate HasField(obj: Json, key: string)
    requires obj.Object?
  {
    Field(obj, key).Some?
  }

  predicate HasString(obj: Json, key: string)
    requires obj.Object?
  {
    var v := Field(obj, key);
    v.Some? && v.value.String?
  }

  predicate IsStringList(v: Json) {
    v.Array? && forall i :: 0 <= i < |v.items| ==> v.items[i].String?
  }

  /** Follows a dotted reference into a document; a missing step makes the reference undefined. */
  function Navigate(document: Json, steps: seq<string>): Option<Json> {
    if steps == [] then Some(document)
    else if !document.Object? then None
    else
      var next := Field(document, steps[0]);
      if next.None? then None else Navigate(next.value, steps[1..])
  }
}
