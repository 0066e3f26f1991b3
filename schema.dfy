/** Rows of the two tables the handlers write and read, as the database
    returns them. Nullable columns are options; `numeric` and timestamp
    columns are kept as the text the response body carries. */
module Schema {
  import opened Wrappers

  datatype UserRow = UserRow(id: string, email: Option<string>)

  datatype ExperimentRow = ExperimentRow(
    id: string,
    userId: Option<string>,
    name: Option<string>,
    description: Option<string>,
    createdAt: Option<string>,
    ph: Option<string>,
    tds: Option<string>,
    turbidity: Option<string>,
    summary: Option<string>,
    solution: Option<string>
  )
}
