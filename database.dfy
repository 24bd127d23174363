/**
 * The relational store behind both repositories, reduced to what the core relies
 * on: two tables keyed by an identity column that starts at 1 and only grows, and
 * the foreign key from schedules.program_id to programs.id. Each repository call
 * is one atomic step on this object.
 */
module Db {
  import opened Wrappers
  import opened Models

  datatype StoreError =
    | ProgramNotFound      // "program not found"
    | NoRows               // sql.ErrNoRows, passed through unchanged
    | CouldNotGetProgram   // "could not get program"
    | InvalidDayNumber     // "invalid day number"
    | DateParseError       // the error returned by the date parser
    | ForeignKeyViolation  // the store refuses a write that would leave a schedule without its program
    | StatementFailed      // any other failure the store reports for a statement
    | BeginFailed          // "failed to begin transaction"
    | DeleteFailed         // "failed to execute delete query"
    | CommitFailed         // "failed to commit transaction"
    | RowsAffectedFailed   // "failed to get rows affected"

  /** Where, if anywhere, the store fails during the delete-all transaction. */
  datatype TxFault = NoFault | BeginFault | DeleteFault | CommitFault | RowsAffectedFault

  class Database {
    var programs: map<nat, Program>
    var nextProgramId: nat
    var schedules: map<nat, Schedule>
    var nextScheduleId: nat

    /** Identity keys, each row carrying its own key, and the foreign key. */
    ghost predicate Valid()
      reads this
    {
      && 1 <= nextProgramId && 1 <= nextScheduleId
      && (forall id :: id in programs ==> 1 <= id < nextProgramId && programs[id].id == Some(id))
      && (forall id :: id in schedules ==> 1 <= id < nextScheduleId && schedules[id].id == Some(id))
      && (forall id :: id in schedules ==> schedules[id].programId in programs)
    }

    /** Some schedule still points at this program. */
    predicate Referenced(programId: nat)
      reads this
    {
      exists id :: id in schedules && schedules[id].programId == programId
    }

    /** Both tables as freshly created: empty, identities starting at 1. */
    constructor ()
      ensures Valid()
      ensures programs == map[] && schedules == map[]
      ensures nextProgramId == 1 && nextScheduleId == 1
    {
      programs, schedules := map[], map[];
      nextProgramId, nextScheduleId := 1, 1;
    }
  }
}
