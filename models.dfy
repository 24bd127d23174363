/** The two records exchanged between handlers, validators and the store. */
module Models {
  import opened Wrappers
  import opened GoStrings

  /** A broadcast show. `id` and `inProduction` are Go pointers and may be nil. */
  datatype Program = Program(
    id: Option<nat>,
    name: GoString,
    description: GoString,
    host: GoString,
    category: GoString,
    inProduction: Option<bool>)

  /** One airing of a program; `day` is an Italian day name, `date` a date-time text. */
  datatype Schedule = Schedule(
    id: Option<nat>,
    programId: nat,
    description: GoString,
    day: GoString,
    date: GoString)
}
