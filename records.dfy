/** The record shapes shared by the controller and the pipeline: a row of the
    `target` table and the target object `loadTargets` builds from it. */
module Records {
  import opened Wrappers

  /** A row of `SELECT * FROM target`; `meta` is the JSON text column. */
  datatype Row = Row(id: int, name: string, lat: real, lng: real, series: string, meta: string)

  /** The fields `loadTargets` reads out of a parsed `meta` (undefined = None). */
  datatype MetaFields = MetaFields(prefecture: Option<string>, url: Option<string>, description: Option<string>)

  /** A clipping target: the row's columns plus three fields of its meta. */
  datatype Target = Target(
    id: int, name: string, lat: real, lng: real, series: string,
    prefecture: Option<string>, url: Option<string>, description: Option<string>)

  /** Rows as `ORDER BY id` returns them: strictly increasing, hence distinct, ids. */
  ghost predicate SortedById(rows: seq<Row>) {
    forall i, j :: 0 <= i < j < |rows| ==> rows[i].id < rows[j].id
  }
}
