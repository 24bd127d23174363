/** CRUD and lookups on the programs table. */
module ProgramRepository {
  import opened Wrappers
  import opened GoStrings
  import opened Models
  import opened Tables
  import opened Db

  /** The row stored for `program` under `id`: its five columns and the key. */
  function Stored(program: Program, id: nat): (row: Program)
    ensures row.id == Some(id)
    ensures row.(id := program.id) == program
  {
    program.(id := Some(id))
  }

  /** AddProgram: the insert takes the next identity value; on failure the id is 0. */
  method AddProgram(program: Program, db: Database, fault: bool) returns (id: nat, err: Option<StoreError>)
    requires db.Valid()
    modifies db
    ensures db.Valid()
    ensures fault ==> id == 0 && err == Some(StatementFailed) && unchanged(db)
    ensures !fault ==>
      && err == None
      && id == old(db.nextProgramId) && id > 0 && id !in old(db.programs)
      && db.programs == old(db.programs)[id := Stored(program, id)]
      && db.nextProgramId == id + 1
      && db.schedules == old(db.schedules) && db.nextScheduleId == old(db.nextScheduleId)
  {
    if fault {
      return 0, Some(StatementFailed);
    }
    id := db.nextProgramId;
    db.programs := db.programs[id := Stored(program, id)];
    db.nextProgramId := id + 1;
    err := None;
  }

  method GetProgramByID(programId: nat, db: Database) returns (r: Result<Program, StoreError>)
    requires db.Valid()
    ensures r.Ok? <==> programId in db.programs
    ensures r.Ok? ==> r.value == db.programs[programId] && r.value.id == Some(programId)
    ensures r.Err? ==> r.error == ProgramNotFound
  {
    if programId in db.programs {
      r := Ok(db.programs[programId]);
    } else {
      r := Err(ProgramNotFound);
    }
  }

  /**
   * GetProgramByName: the name is compared byte for byte. Names are not unique; the model
   * returns the match with the smallest id, the first one a key-order scan meets.
   */
  method GetProgramByName(name: GoString, db: Database) returns (r: Result<Program, StoreError>)
    requires db.Valid()
    ensures r.Ok? ==>
      && r.value.id.Some? && r.value.id.value in db.programs
      && db.programs[r.value.id.value] == r.value && r.value.name == name
    ensures r.Ok? ==> forall id :: id in db.programs && db.programs[id].name == name ==> r.value.id.value <= id
    ensures r.Err? <==> forall id :: id in db.programs ==> db.programs[id].name != name
    ensures r.Err? ==> r.error == ProgramNotFound
  {
    var id := 0;
    while id < db.nextProgramId
      invariant id <= db.nextProgramId
      invariant forall k :: k in db.programs && k < id ==> db.programs[k].name != name
    {
      if id in db.programs && db.programs[id].name == name {
        return Ok(db.programs[id]);
      }
      id := id + 1;
    }
    return Err(ProgramNotFound);
  }

  /** GetProgramsByCategory: every program of that category; none is not an error. */
  method GetProgramsByCategory(category: GoString, db: Database) returns (programs: seq<Program>)
    requires db.Valid()
    ensures forall i :: 0 <= i < |programs| ==> programs[i] in db.programs.Values && programs[i].category == category
    ensures forall id :: id in db.programs && db.programs[id].category == category ==> db.programs[id] in programs
    ensures |programs| == |set id | id in db.programs && db.programs[id].category == category|
  {
    var inCategory := (p: Program) => p.category == category;
    programs := Scan(db.programs, db.nextProgramId, inCategory);
    WhereCount(db.programs, db.nextProgramId, inCategory);
    assert SelectedKeys(db.programs, db.nextProgramId, inCategory)
        == set id | id in db.programs && db.programs[id].category == category;
  }

  method GetAllPrograms(db: Database) returns (programs: seq<Program>)
    requires db.Valid()
    ensures forall i :: 0 <= i < |programs| ==> programs[i] in db.programs.Values
    ensures forall id :: id in db.programs ==> db.programs[id] in programs
    ensures |programs| == |db.programs|
  {
    var all := (p: Program) => true;
    programs := Scan(db.programs, db.nextProgramId, all);
    WhereCount(db.programs, db.nextProgramId, all);
    assert SelectedKeys(db.programs, db.nextProgramId, all) == db.programs.Keys;
  }

  /** UpdateProgramByID: full replace of the five columns; a missing id changes nothing and is no error. */
  method UpdateProgramByID(programId: nat, updated: Program, db: Database, fault: bool) returns (err: Option<StoreError>)
    requires db.Valid()
    modifies db
    ensures db.Valid()
    ensures fault ==> err == Some(StatementFailed) && unchanged(db)
    ensures !fault ==>
      && err == None
      && db.programs == (if programId in old(db.programs)
                         then old(db.programs)[programId := Stored(updated, programId)]
                         else old(db.programs))
      && db.nextProgramId == old(db.nextProgramId)
      && db.schedules == old(db.schedules) && db.nextScheduleId == old(db.nextScheduleId)
  {
    if fault {
      return Some(StatementFailed);
    }
    if programId in db.programs {
      db.programs := db.programs[programId := Stored(updated, programId)];
    }
    err := None;
  }

  /**
   * DeleteProgram: removes the row with that id; a missing id is no error. The
   * foreign key makes the store refuse to delete a program that schedules still use.
   */
  method DeleteProgram(programId: nat, db: Database, fault: bool) returns (err: Option<StoreError>)
    requires db.Valid()
    modifies db
    ensures db.Valid()
    ensures fault ==> err == Some(StatementFailed) && unchanged(db)
    ensures !fault && old(db.Referenced(programId)) ==> err == Some(ForeignKeyViolation) && unchanged(db)
    ensures !fault && !old(db.Referenced(programId)) ==>
      && err == None
      && db.programs == old(db.programs) - {programId}
      && db.nextProgramId == old(db.nextProgramId)
      && db.schedules == old(db.schedules) && db.nextScheduleId == old(db.nextScheduleId)
  {
    if fault {
      return Some(StatementFailed);
    }
    if db.Referenced(programId) {
      return Some(ForeignKeyViolation);
    }
    db.programs := db.programs - {programId};
    err := None;
  }

  /** Reading back a freshly added program gives its five fields with the id filled in. */
  method AddProgramRoundTrip(program: Program, db: Database) returns (id: nat, got: Result<Program, StoreError>)
    requires db.Valid()
    modifies db
    ensures db.Valid()
    ensures got == Ok(program.(id := Some(id)))
  {
    var err;
    id, err := AddProgram(program, db, false);
    got := GetProgramByID(id, db);
  }
}
