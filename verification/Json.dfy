/** JSON values as the repository handles them after decoding: numbers keep
    their text (json.Number), objects are unordered. */
module Json {
  datatype Json =
    | Null
    | Bool(truth: bool)
    | Number(digits: string)
    | String(text: string)
    | Array(items: seq<Json>)
    | Object(fields: Fields)

  type Fields = map<string, Json>

  /** The value under a key; an absent key reads as null (a Go map read). */
  function Get(fields: Fields, key: string): Json {
    if key in fields then fields[key] else Null
  }
}
