# openprogramschedule core, modelled in Dafny

This project models the decision logic of the openprogramschedule service. The service is a
CRUD HTTP API for broadcast *programs* and their *schedules*, stored in SQL Server. The model
covers four parts:

- **Validators** (`validators.dfy`). These are the fail-fast field checks on a Program and a
  Schedule. Lengths are Go `len`, so they count bytes: strings are modelled as byte sequences
  (`gostrings.dfy`).
- **Access gate** (`auth_middleware.dfy`). It holds the nine-entry public path table, the exact
  match search over it, and the bearer-token decision cascade of `AuthMiddleware`. The cascade is
  a pure function of the Authorization header, the URL path, the public API key and the private
  key. The two keys are parameters; the source reads them from the environment.
- **Program store and schedule store** (`program_repository.dfy`, `schedule_repository.dfy`).
  Every repository function is a method on a `Db.Database` object (`database.dfy`). That object
  stands for the SQL connection: two tables as maps from id to row, plus an identity counter per
  table that starts at 1. Its invariant `Valid()` states three things:
  - every key is below its counter;
  - every row carries its own key;
  - the foreign key from `schedules.program_id` to `programs.id` holds.

  Each method keeps `Valid()`. Each says exactly what the new tables are, and that the tables and
  counters it does not touch stay the same.
- **Row scans** (`tables.dfy`). Queries that return several rows share one specification.
  `Where` gives the rows a WHERE clause selects, and `Scan` is the `rows.Next()` loop proved to
  collect exactly those rows. `WhereCount` shows that no row is returned twice.

A write that the store can fail takes a `fault` parameter, meaning "the store reports an error
for this statement". The delete-all transaction takes a `TxFault` that says at which step it fails.

Points where the code behaves differently from what its own texts suggest; the model follows the code:
- The upper length bounds are inclusive. The checks are `> 52` and `> 100`
  (`internal/validators/program_validator.go:16`, `:27`, `internal/validators/schedule_validator.go:17`),
  so 52 and 100 bytes pass, although the error texts say "less than 52" and "less than 100".
- The date lookup selects `date >= start AND date <= end`
  (`internal/repository/schedule_repository.go:165`), so a schedule at the next midnight is
  returned too.
- The schema declares a foreign key (`internal/db/connect.go:70`), so updating a schedule to point
  at a missing program fails in the store. Deleting a program that schedules still use fails the
  same way. The Go code itself does no check in either case.

## Model

| member | source | states |
|---|---|---|
| GoStrings.HasPrefix | internal/middlewares/auth_middleware.go:62 | `strings.HasPrefix`: the first bytes of the string are the prefix, compared byte by byte |
| GoStrings.TrimPrefix | internal/middlewares/auth_middleware.go:68 | with the prefix present, the prefix followed by the result is the input; without it, the input comes back unchanged |
| Validators.LengthProblem | internal/validators/program_validator.go:10-18 | one field's check: no problem iff 3 <= n <= max; Missing iff empty; TooShort iff length 1 or 2; TooLong iff longer than max |
| Validators.ValidateProgram | internal/validators/program_validator.go:8-59 | nil error iff name, host and category are 3..52 bytes, description is 3..100 bytes and InProduction is non-nil; InProductionMissing iff only InProduction is wrong; a field error names a field whose earlier fields all pass, with that field's own problem |
| Validators.FirstBadFieldReported | internal/validators/program_validator.go:10-51 | if every field before f passes and f fails, the error is f's: empty gives Missing, 1-2 bytes give TooShort, over the bound gives TooLong |
| Validators.LaterFieldsNotInspected | internal/validators/program_validator.go:8-58 | fail-fast: two programs that agree up to and including the first failing field get the same error, whatever their later fields hold |
| Validators.UpperBoundsInclusive | internal/validators/program_validator.go:16-51 | a field at exactly its bound (52, or 100 for the description) passes; one byte more is TooLong |
| Validators.InProductionFalseAccepted | internal/validators/program_validator.go:54-56 | InProduction = false passes; only nil gives InProductionMissing |
| Validators.ValidateSchedule | internal/validators/schedule_validator.go:8-22 | nil iff the description is 3..100 bytes; empty gives Missing, 1-2 bytes TooShort, over 100 TooLong |
| Validators.ScheduleValidityIgnoresOtherFields | internal/validators/schedule_validator.go:8-21 | schedules with the same description get the same result: program id, day and date are not inspected |
| Middlewares.IsPathPublicUrl | internal/middlewares/auth_middleware.go:34-41 | the loop returns true iff the path equals one of the nine table entries exactly |
| Middlewares.RouteClassification | internal/middlewares/auth_middleware.go:15-25 | /programs/all and /schedules/get-by-date are public; /programs/add, /schedules/delete-all and /programs/all/ (trailing slash) are not, so matching is exact |
| Middlewares.Decide | internal/middlewares/auth_middleware.go:43-95 | MissingHeader iff the header is empty; BadFormat iff it is non-empty and lacks the "Bearer " prefix; Accept iff the header is "Bearer " followed by the key the path needs (public key on public paths, private key elsewhere); InvalidToken otherwise |
| Middlewares.TokenDropsOnePrefix | internal/middlewares/auth_middleware.go:68 | the token is the header minus exactly one leading "Bearer " ("Bearer Bearer k" gives "Bearer k") |
| Middlewares.PrivateKeyDoesNotOpenPublicPaths | internal/middlewares/auth_middleware.go:70-81 | on a public path the public key is accepted, and the private key is accepted only if it equals the public key |
| Middlewares.PublicKeyDoesNotOpenPrivatePaths | internal/middlewares/auth_middleware.go:83-93 | on any other path the private key is accepted, and the public key is accepted only if it equals the private key |
| Middlewares.EmptyKeyAcceptsEmptyToken | internal/middlewares/auth_middleware.go:59-93 | comparison is plain equality, so if the needed key is empty the bare header "Bearer " is accepted |
| Middlewares.LowerCaseBearerRejected | internal/middlewares/auth_middleware.go:62-67 | the prefix test is case-sensitive: "bearer ..." is BadFormat |
| Tables.Where | internal/repository/schedule_repository.go:57-65 | every returned row is in the table and satisfies the filter; every table row below the bound that satisfies it is returned |
| Tables.Scan | internal/repository/schedule_repository.go:57-65 | the cursor loop collects exactly Where's rows, in key order |
| Tables.WhereCount | internal/repository/schedule_repository.go:57-70 | the result has one entry per selected key, so no row is missed or repeated |
| Db.Database.Valid | internal/db/connect.go:46-75 | the store invariant every store method keeps: each key lies between 1 and its identity counter, each row carries its own key, and every schedule's program id names a stored program |
| Db.Database.constructor | internal/db/connect.go:46-75 | freshly created tables are empty, identities start at 1, and the store invariant (keys, foreign key) holds |
| ProgramRepository.AddProgram | internal/repository/program_repository.go:12-30 | on success the five fields are stored under a fresh id (the next identity value, never used before), that id is returned, and nothing else changes; on failure the id is 0, an error is returned and nothing changes |
| ProgramRepository.GetProgramByID | internal/repository/program_repository.go:34-47 | returns the stored row (id filled in) iff the id exists, else "program not found" |
| ProgramRepository.AddProgramRoundTrip | internal/repository/program_repository.go:12-47 | reading back the id AddProgram returned gives the added program with its id populated |
| ProgramRepository.GetProgramByName | internal/repository/program_repository.go:50-63 | "program not found" iff no row has that name (byte equality); otherwise a stored row with that name, the one with the smallest id |
| ProgramRepository.GetProgramsByCategory | internal/repository/program_repository.go:66-94 | the programs whose category equals the argument, each exactly once (the count equals the number of matching rows); an empty result is not an error |
| ProgramRepository.GetAllPrograms | internal/repository/program_repository.go:97-125 | every stored program, each exactly once |
| ProgramRepository.UpdateProgramByID | internal/repository/program_repository.go:128-147 | replaces all five fields of the row with that id and keeps its id; other rows and the schedules stay the same; a missing id is a silent success with no change |
| ProgramRepository.DeleteProgram | internal/repository/program_repository.go:150-158 | removes only that row, and a missing id is no error; a program still used by a schedule is refused by the foreign key with no change |
| ScheduleRepository.DaysOfTheWeekTable | internal/repository/schedule_repository.go:13-21 | the day table is defined exactly on 1..7, with 1 = Lunedi and 7 = Domenica, and no two days share a name |
| ScheduleRepository.AddSchedule | internal/repository/schedule_repository.go:24-47 | with no such program: "could not get program" and no change; otherwise one new row with the given program id, description, day and date under a fresh id, which is returned, and existing rows are unchanged |
| ScheduleRepository.GetAllSchedules | internal/repository/schedule_repository.go:50-71 | every stored schedule, each exactly once |
| ScheduleRepository.GetScheduleByID | internal/repository/schedule_repository.go:74-84 | the row with that id, or the store's no-rows error when it is missing |
| ScheduleRepository.GetScheduleByProgramID | internal/repository/schedule_repository.go:87-117 | fails with "could not get program" iff the program is absent; otherwise the schedules with that program id, each exactly once, possibly none |
| ScheduleRepository.GetScheduleByDay | internal/repository/schedule_repository.go:120-154 | "invalid day number" iff the day is outside 1..7; otherwise the rows whose day is that day's name, each exactly once |
| ScheduleRepository.GetScheduleByDate | internal/repository/schedule_repository.go:157-192 | a parse error iff the date text is rejected; otherwise the rows dated between that UTC midnight and the next one, both ends included, each exactly once |
| ScheduleRepository.InWindow | internal/repository/schedule_repository.go:162-165 | the date lookup's WHERE clause: the stored date lies between the day's start and one day later, both ends included |
| ScheduleRepository.UpdateScheduleByID | internal/repository/schedule_repository.go:195-213 | replaces only the row with that id, keeping its id; a missing id is a silent success with no change; no program lookup is made, and a row is refused only by the foreign key when its new program does not exist |
| ScheduleRepository.DeleteScheduleByID | internal/repository/schedule_repository.go:216-224 | removes only the row with that id; a missing id is no error |
| ScheduleRepository.DeleteAllSchedules | internal/repository/schedule_repository.go:227-251 | success leaves the table empty; a failed begin, delete (rolled back) or commit returns an error and leaves the table unchanged; a failed row count after the commit returns an error with the table already empty |

## Left out

- Logging (`log.Printf`, `fmt.Printf`) and the HTTP response bodies written by the gate. A bad
  format writes "Invalid Authorization header format"; a missing header or a wrong key on a public
  path writes "Unauthorized"; a wrong key on a private path writes "Invalid token". The model keeps
  only the reason. The HTTP method is not an input, because the decision never reads it.
- Error texts. Each message is represented by an error constructor, with the text in a comment.
- Handlers, routes, JSON, server lifecycle and environment loading. These are thin glue or I/O
  around the modelled core.
- Read-side store failures (`db.Query`, `rows.Scan` and `rows.Err` errors). Every read in the
  model succeeds on the abstract tables.
- Calendar arithmetic. Parsing the date text and reading a stored date as an instant are the two
  functions of the `Calendar` parameter; the model does not define them. The day window ends
  `SecondsPerDay` after its start, which is what `AddDate(0, 0, 1)` gives in UTC.
- The driver's rendering of a stored DATETIME back into a string. A stored row keeps the date text
  it was given.
- GetProgramByName, GetProgramsByCategory, GetScheduleByDay: the store's `=` on the NVARCHAR
  columns `name`, `category` and `day` is modelled as exact byte equality. SQL Server ignores
  trailing spaces in that comparison and applies the server's default collation, which is usually
  case-insensitive; the model does neither, so it can miss rows the store would return.
- Column types. The model has no NVARCHAR size limits or truncation errors, and no INT overflow
  of ids: ids are unbounded naturals.
- Row order. The queries have no ORDER BY. The model returns rows in key order, so
  `GetProgramByName` returns the match with the smallest id.
- Concurrency. Each repository call is one atomic step, so the race between the program check and
  the insert in AddSchedule does not arise.
- Identity values used up by a failed insert. In the model a failed insert leaves the counter
  unchanged.
- The empty Program value that `GetProgramByID` and `GetProgramByName` return next to their error.
