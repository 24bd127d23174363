/**
 * CRUD and lookups on the schedules table. Creating a schedule and listing a
 * program's schedules first look the program up through the program store.
 */
module ScheduleRepository {
  import opened Wrappers
  import opened GoStrings
  import opened Models
  import opened Tables
  import opened Db
  import ProgramRepository

  /** Day number (1 = Monday) to the Italian day name stored in schedules.day. */
  const DaysOfTheWeek: map<int, GoString> := map[
    1 := Ascii("Lunedi"),
    2 := Ascii("Martedi"),
    3 := Ascii("Mercoledi"),
    4 := Ascii("Giovedi"),
    5 := Ascii("Venerdi"),
    6 := Ascii("Sabato"),
    7 := Ascii("Domenica")
  ]

  /** The table covers exactly 1..7, Monday to Sunday, and no two days share a name. */
  lemma DaysOfTheWeekTable()
    ensures forall d :: d in DaysOfTheWeek <==> 1 <= d <= 7
    ensures DaysOfTheWeek[1] == Ascii("Lunedi") && DaysOfTheWeek[7] == Ascii("Domenica")
    ensures forall d, e :: d in DaysOfTheWeek && e in DaysOfTheWeek && d != e ==> DaysOfTheWeek[d] != DaysOfTheWeek[e]
  {
    forall d, e | d in DaysOfTheWeek && e in DaysOfTheWeek && d != e
      ensures DaysOfTheWeek[d] != DaysOfTheWeek[e]
    {
      assert |DaysOfTheWeek[d]| != |DaysOfTheWeek[e]| || DaysOfTheWeek[d][0] != DaysOfTheWeek[e][0];
    }
  }

  /**
   * The two calendar services the date lookup relies on. `startOfDay` is the
   * YYYY-MM-DD parser followed by truncation to UTC midnight, in seconds, and
   * is None on malformed text; `instant` is how the store reads a stored date.
   */
  datatype Calendar = Calendar(startOfDay: GoString -> Option<int>, instant: GoString -> int)

  /** One UTC calendar day; UTC has no daylight-saving shifts. */
  const SecondsPerDay: int := 86400

  /** AddSchedule: refuses a schedule whose program does not exist, else inserts it under the next id. */
  method AddSchedule(schedule: Schedule, db: Database, fault: bool) returns (id: nat, err: Option<StoreError>)
    requires db.Valid()
    modifies db
    ensures db.Valid()
    ensures schedule.programId !in old(db.programs) ==> id == 0 && err == Some(CouldNotGetProgram) && unchanged(db)
    ensures schedule.programId in old(db.programs) && fault ==> id == 0 && err == Some(StatementFailed) && unchanged(db)
    ensures schedule.programId in old(db.programs) && !fault ==>
      && err == None
      && id == old(db.nextScheduleId) && id > 0 && id !in old(db.schedules)
      && db.schedules == old(db.schedules)[id := schedule.(id := Some(id))]
      && db.nextScheduleId == id + 1
      && db.programs == old(db.programs) && db.nextProgramId == old(db.nextProgramId)
  {
    var program := ProgramRepository.GetProgramByID(schedule.programId, db);
    if program.Err? {
      return 0, Some(CouldNotGetProgram);
    }
    if fault {
      return 0, Some(StatementFailed);
    }
    id := db.nextScheduleId;
    db.schedules := db.schedules[id := schedule.(id := Some(id))];
    db.nextScheduleId := id + 1;
    err := None;
  }

  /** GetAllSchedules: every stored row, each once. */
  method GetAllSchedules(db: Database) returns (schedules: seq<Schedule>)
    requires db.Valid()
    ensures forall i :: 0 <= i < |schedules| ==> schedules[i] in db.schedules.Values
    ensures forall id :: id in db.schedules ==> db.schedules[id] in schedules
    ensures |schedules| == |db.schedules|
  {
    var all := (s: Schedule) => true;
    schedules := Scan(db.schedules, db.nextScheduleId, all);
    WhereCount(db.schedules, db.nextScheduleId, all);
    assert SelectedKeys(db.schedules, db.nextScheduleId, all) == db.schedules.Keys;
  }

  /** GetScheduleByID: a missing id is the store's no-rows error. */
  method GetScheduleByID(scheduleId: nat, db: Database) returns (r: Result<Schedule, StoreError>)
    requires db.Valid()
    ensures r.Ok? <==> scheduleId in db.schedules
    ensures r.Ok? ==> r.value == db.schedules[scheduleId] && r.value.id == Some(scheduleId)
    ensures r.Err? ==> r.error == NoRows
  {
    if scheduleId in db.schedules {
      r := Ok(db.schedules[scheduleId]);
    } else {
      r := Err(NoRows);
    }
  }

  /** GetScheduleByProgramID: the program must exist; then all its schedules, possibly none. */
  method GetScheduleByProgramID(programId: nat, db: Database) returns (r: Result<seq<Schedule>, StoreError>)
    requires db.Valid()
    ensures r.Err? <==> programId !in db.programs
    ensures r.Err? ==> r.error == CouldNotGetProgram
    ensures r.Ok? ==> forall i :: 0 <= i < |r.value| ==> r.value[i] in db.schedules.Values && r.value[i].programId == programId
    ensures r.Ok? ==> forall id :: id in db.schedules && db.schedules[id].programId == programId ==> db.schedules[id] in r.value
    ensures r.Ok? ==> |r.value| == |set id | id in db.schedules && db.schedules[id].programId == programId|
  {
    var program := ProgramRepository.GetProgramByID(programId, db);
    if program.Err? {
      return Err(CouldNotGetProgram);
    }
    var ofProgram := (s: Schedule) => s.programId == programId;
    var schedules := Scan(db.schedules, db.nextScheduleId, ofProgram);
    WhereCount(db.schedules, db.nextScheduleId, ofProgram);
    assert SelectedKeys(db.schedules, db.nextScheduleId, ofProgram)
        == set id | id in db.schedules && db.schedules[id].programId == programId;
    r := Ok(schedules);
  }

  /** GetScheduleByDay: the day number must be in the table; then the rows with that day name. */
  method GetScheduleByDay(day: int, db: Database) returns (r: Result<seq<Schedule>, StoreError>)
    requires db.Valid()
    ensures r.Err? <==> !(1 <= day <= 7)
    ensures r.Err? ==> r.error == InvalidDayNumber
    ensures r.Ok? ==> forall i :: 0 <= i < |r.value| ==> r.value[i] in db.schedules.Values && r.value[i].day == DaysOfTheWeek[day]
    ensures r.Ok? ==> forall id :: id in db.schedules && db.schedules[id].day == DaysOfTheWeek[day] ==> db.schedules[id] in r.value
    ensures r.Ok? ==> |r.value| == |set id | id in db.schedules && db.schedules[id].day == DaysOfTheWeek[day]|
  {
    if day !in DaysOfTheWeek {
      return Err(InvalidDayNumber);
    }
    var dayName := DaysOfTheWeek[day];
    var onDay := (s: Schedule) => s.day == dayName;
    var schedules := Scan(db.schedules, db.nextScheduleId, onDay);
    WhereCount(db.schedules, db.nextScheduleId, onDay);
    assert SelectedKeys(db.schedules, db.nextScheduleId, onDay)
        == set id | id in db.schedules && db.schedules[id].day == dayName;
    r := Ok(schedules);
  }

  /** The query window of a date lookup: from midnight to the next midnight, both included. */
  predicate InWindow(cal: Calendar, start: int, s: Schedule)
  {
    start <= cal.instant(s.date) <= start + SecondsPerDay
  }

  /**
   * GetScheduleByDate: fails on text the parser rejects; otherwise the rows whose
   * date lies between that day's UTC midnight and the following one, inclusive.
   */
  method GetScheduleByDate(date: GoString, db: Database, cal: Calendar) returns (r: Result<seq<Schedule>, StoreError>)
    requires db.Valid()
    ensures r.Err? <==> cal.startOfDay(date).None?
    ensures r.Err? ==> r.error == DateParseError
    ensures r.Ok? ==> forall i :: 0 <= i < |r.value| ==>
      r.value[i] in db.schedules.Values && InWindow(cal, cal.startOfDay(date).value, r.value[i])
    ensures r.Ok? ==> forall id :: id in db.schedules && InWindow(cal, cal.startOfDay(date).value, db.schedules[id]) ==>
      db.schedules[id] in r.value
    ensures r.Ok? ==> |r.value| == |set id | id in db.schedules && InWindow(cal, cal.startOfDay(date).value, db.schedules[id])|
  {
    var parsed := cal.startOfDay(date);
    if parsed.None? {
      return Err(DateParseError);
    }
    var start := parsed.value;
    var inWindow := (s: Schedule) => InWindow(cal, start, s);
    var schedules := Scan(db.schedules, db.nextScheduleId, inWindow);
    WhereCount(db.schedules, db.nextScheduleId, inWindow);
    assert SelectedKeys(db.schedules, db.nextScheduleId, inWindow)
        == set id | id in db.schedules && InWindow(cal, start, db.schedules[id]);
    r := Ok(schedules);
  }

  /**
   * UpdateScheduleByID: full replace of the row with that id. No program lookup is
   * made; only the foreign key stops a row from pointing at a missing program, and
   * it only applies when a row is actually updated. A missing id changes nothing.
   */
  method UpdateScheduleByID(scheduleId: nat, updated: Schedule, db: Database, fault: bool) returns (err: Option<StoreError>)
    requires db.Valid()
    modifies db
    ensures db.Valid()
    ensures fault ==> err == Some(StatementFailed) && unchanged(db)
    ensures !fault && scheduleId !in old(db.schedules) ==> err == None && unchanged(db)
    ensures !fault && scheduleId in old(db.schedules) && updated.programId !in old(db.programs) ==>
      err == Some(ForeignKeyViolation) && unchanged(db)
    ensures !fault && scheduleId in old(db.schedules) && updated.programId in old(db.programs) ==>
      && err == None
      && db.schedules == old(db.schedules)[scheduleId := updated.(id := Some(scheduleId))]
      && db.nextScheduleId == old(db.nextScheduleId)
      && db.programs == old(db.programs) && db.nextProgramId == old(db.nextProgramId)
  {
    if fault {
      return Some(StatementFailed);
    }
    if scheduleId in db.schedules {
      if updated.programId !in db.programs {
        return Some(ForeignKeyViolation);
      }
      db.schedules := db.schedules[scheduleId := updated.(id := Some(scheduleId))];
    }
    err := None;
  }

  /** DeleteScheduleByID: removes the row with that id; a missing id is no error. */
  method DeleteScheduleByID(scheduleId: nat, db: Database, fault: bool) returns (err: Option<StoreError>)
    requires db.Valid()
    modifies db
    ensures db.Valid()
    ensures fault ==> err == Some(StatementFailed) && unchanged(db)
    ensures !fault ==>
      && err == None
      && db.schedules == old(db.schedules) - {scheduleId}
      && db.nextScheduleId == old(db.nextScheduleId)
      && db.programs == old(db.programs) && db.nextProgramId == old(db.nextProgramId)
  {
    if fault {
      return Some(StatementFailed);
    }
    db.schedules := db.schedules - {scheduleId};
    err := None;
  }

  /**
   * DeleteAllSchedules: begin, delete, commit. A failed delete is rolled back and
   * leaves the table as it was. The row count is read after the commit, so if
   * that read fails the rows are already gone although an error is returned.
   */
  method DeleteAllSchedules(db: Database, fault: TxFault) returns (err: Option<StoreError>)
    requires db.Valid()
    modifies db
    ensures db.Valid()
    ensures fault == BeginFault ==> err == Some(BeginFailed) && unchanged(db)
    ensures fault == DeleteFault ==> err == Some(DeleteFailed) && unchanged(db)
    ensures fault == CommitFault ==> err == Some(CommitFailed) && unchanged(db)
    ensures fault == RowsAffectedFault || fault == NoFault ==>
      && err == (if fault == NoFault then None else Some(RowsAffectedFailed))
      && db.schedules == map[]
      && db.nextScheduleId == old(db.nextScheduleId)
      && db.programs == old(db.programs) && db.nextProgramId == old(db.nextProgramId)
  {
    if fault == BeginFault {
      return Some(BeginFailed);
    }
    // The transaction's view of the table; the store sees it only on commit.
    var pending := db.schedules;
    if fault == DeleteFault {
      // Rollback: `pending` is dropped.
      return Some(DeleteFailed);
    }
    pending := map[];
    if fault == CommitFault {
      return Some(CommitFailed);
    }
    db.schedules := pending;
    if fault == RowsAffectedFault {
      return Some(RowsAffectedFailed);
    }
    err := None;
  }
}
