/** The records of both datasets: JSON objects whose fields are strings.
    A key that is absent from the map is a missing field. */
module Records {

  type Record = map<string, string>

  /** Python's `item.get(key, default)`: the field's value when the record
      has the field, otherwise the default. */
  function GetOr(rec: Record, key: string, default: string): (v: string)
    ensures key in rec ==> v == rec[key]
    ensures key !in rec ==> v == default
  {
    if key in rec then rec[key] else default
  }

  /** Python's `item.get(key) == value`: a missing field is `None`, which
      equals no string. */
  predicate HasValue(rec: Record, key: string, value: string): (b: bool)
    ensures key !in rec ==> !b
    ensures key in rec ==> (b <==> rec[key] == value)
  {
    key in rec && rec[key] == value
  }
}
