/** The table shape shared by OpenSourceProject and OpenSourceSoftware: NOT NULL
    `url`, `name` and `hipcheckResults` columns, the last of type `jsonb` with the
    default `{}` for an unset value, and a unique index on `(url, name)`. */
module UrlNameTable {
  import opened Common

  /** A stored row, keyed by its generated id in the table map. */
  datatype Row = Row(url: string, name: string, hipcheckResults: Json)

  /** The value the `hipcheckResults` column receives on insert. */
  function ColumnDefault(hipcheckResults: Option<Json>): (j: Json)
    ensures hipcheckResults.None? ==> j == EmptyObject
    ensures hipcheckResults.Some? ==> j == hipcheckResults.value
  {
    if hipcheckResults.Some? then hipcheckResults.value else EmptyObject
  }

  /** Some row already holds this `(url, name)` pair. */
  predicate KeyTaken(rows: map<string, Row>, url: string, name: string) {
    exists id :: id in rows && rows[id].url == url && rows[id].name == name
  }

  /** The unique index: no two rows share both `url` and `name`. */
  ghost predicate UrlNameUnique(rows: map<string, Row>) {
    forall a, b :: a in rows && b in rows && rows[a].url == rows[b].url && rows[a].name == rows[b].name ==> a == b
  }

  /** An INSERT of a new entity under the fresh id `id`. An unset `hipcheckResults`
      takes the column default, but an explicit `null` is written as SQL NULL. The
      insert fails when `url` or `name` is unset, when `hipcheckResults` is `null`
      (all three columns are NOT NULL), or when the `(url, name)` pair is already
      present. */
  function Insert(rows: map<string, Row>, id: string, url: Option<string>, name: Option<string>,
                  hipcheckResults: Option<Json>): (r: Option<map<string, Row>>)
    requires id !in rows
    ensures r.Some? <==> url.Some? && name.Some? && hipcheckResults != Some(JNull)
                         && !KeyTaken(rows, url.value, name.value)
    ensures r.Some? ==> r.value.Keys == rows.Keys + {id}
    ensures r.Some? ==> forall k :: k in rows ==> r.value[k] == rows[k]
    ensures r.Some? ==> r.value[id].url == url.value && r.value[id].name == name.value
    ensures r.Some? && hipcheckResults.None? ==> r.value[id].hipcheckResults == EmptyObject
    ensures r.Some? && hipcheckResults.Some? ==> r.value[id].hipcheckResults == hipcheckResults.value != JNull
    ensures UrlNameUnique(rows) && r.Some? ==> UrlNameUnique(r.value)
  {
    if url.None? || name.None? || hipcheckResults == Some(JNull) || KeyTaken(rows, url.value, name.value) then None
    else Some(rows[id := Row(url.value, name.value, ColumnDefault(hipcheckResults))])
  }
}
