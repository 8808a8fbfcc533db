/** JSON values, as the importer's parser receives them. */
module Json {

  /** Numbers are exact; the spellings without a finite value are kept apart. */
  datatype Json =
    | Null
    | Bool(b: bool)
    | Number(value: real)
    | NonFinite
    | Text(text: string)
    | Array(items: seq<Json>)
    | Object(fields: map<string, Json>)
  {
    /** The field's value, or null where the object has no such field. */
    function Get(field: string): Json {
      if Object? && field in fields then fields[field] else Null
    }

    predicate IsNumber() {
      Number? || NonFinite?
    }
  }
}
