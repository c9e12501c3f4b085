/** The news document record that ingestion writes and the index stores. */
module Documents {

  /** A decoded JSON object, or a feed entry: field name to string value.
      A name that is not a key is a missing field. */
  type Fields = map<string, string>

  datatype Document = Document(title: string, text: string, url: string)

  /** Length limits applied when articles are loaded for indexing. */
  const MaxTitle: nat := 200
  const MaxText: nat := 2000

  /** `fields.get(key, "")`: the field's value, or "" when it is missing. */
  function Field(fields: Fields, key: string): (v: string)
    ensures key in fields ==> v == fields[key]
    ensures key !in fields ==> v == ""
  {
    if key in fields then fields[key] else ""
  }

  predicate WithinLimits(d: Document) {
    |d.title| <= MaxTitle && |d.text| <= MaxText
  }
}
