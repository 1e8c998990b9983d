/** The untyped JSON values that reach the program from the RAG runtime. */
module Json {

  /** Objects keep their entries in insertion order. A number that is not an integer is
      kept as its printed text. */
  datatype Json =
    | JNull
    | JBool(b: bool)
    | JInt(n: int)
    | JNumber(printed: string)
    | JText(text: string)
    | JList(items: seq<Json>)
    | JObject(entries: seq<Entry>)

  datatype Entry = Entry(key: string, value: Json)

  predicate HasKey(entries: seq<Entry>, key: string) {
    entries != [] && (entries[0].key == key || HasKey(entries[1..], key))
  }

  /** `mapping.get(key)`: the value under the key, or null. */
  function Get(entries: seq<Entry>, key: string): Json {
    if entries == [] then JNull
    else if entries[0].key == key then entries[0].value
    else Get(entries[1..], key)
  }
}
