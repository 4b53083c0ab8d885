/** JSON values as json.loads builds them; the fields of an object keep their order and have distinct names. */
module Json {
  import opened Options

  datatype Json =
    | JNull
    | JBool(b: bool)
    | JNumber(text: string)
    | JString(s: string)
    | JList(items: seq<Json>)
    | JObject(fields: seq<Field>)

  datatype Field = Field(name: string, value: Json)

  /** dict.get(name) */
  function Lookup(fields: seq<Field>, name: string): Option<Json> {
    if fields == [] then None
    else if fields[0].name == name then Some(fields[0].value)
    else Lookup(fields[1..], name)
  }

  /** One step down: into the value of a field or an item of a list. */
  datatype Position = AtField(n: nat) | AtItem(n: nat)

  type Path = seq<Position>

  function Child(j: Json, p: Position): Option<Json> {
    match p
    case AtField(n) => if j.JObject? && n < |j.fields| then Some(j.fields[n].value) else None
    case AtItem(n) => if j.JList? && n < |j.items| then Some(j.items[n]) else None
  }

  /** The value a path leads to from the root. */
  function At(j: Json, path: Path): Option<Json>
    decreases |path|
  {
    if path == [] then Some(j)
    else
      match Child(j, path[0])
      case None => None
      case Some(kid) => At(kid, path[1..])
  }
}
