/**
 * Field checks run on a Program or a Schedule before it is stored. Both
 * validators are fail-fast: the first violated check is the error returned and
 * nothing after it is looked at. Lengths are byte counts. The upper bounds are
 * inclusive (52 and 100) although the error texts say "less than".
 */
module Validators {
  import opened Wrappers
  import opened GoStrings
  import opened Models

  datatype ProgramField = Name | Description | Host | Category

  /** What is wrong with a field's length. */
  datatype Problem =
    | Missing   // empty: "is required" for the program name, "is missing" elsewhere
    | TooShort  // "must be at least 3 characters"
    | TooLong   // "must be less than 52/100 characters"

  datatype ValidationError =
    | ProgramFieldInvalid(field: ProgramField, problem: Problem)
    | InProductionMissing
    | ScheduleDescriptionInvalid(problem: Problem)

  const MinLength: nat := 3
  const MaxShortText: nat := 52
  const MaxLongText: nat := 100

  function MaxLength(f: ProgramField): nat
  {
    if f == Description then MaxLongText else MaxShortText
  }

  /** Position of a field in the order the program validator checks them. */
  function Rank(f: ProgramField): nat
  {
    match f
    case Name => 0
    case Description => 1
    case Host => 2
    case Category => 3
  }

  function FieldValue(p: Program, f: ProgramField): GoString
  {
    match f
    case Name => p.name
    case Description => p.description
    case Host => p.host
    case Category => p.category
  }

  predicate FieldOk(p: Program, f: ProgramField)
  {
    MinLength <= |FieldValue(p, f)| <= MaxLength(f)
  }

  /** What a valid program is, independently of the order of the checks. */
  predicate ValidProgram(p: Program)
  {
    && FieldOk(p, Name) && FieldOk(p, Description) && FieldOk(p, Host) && FieldOk(p, Category)
    && p.inProduction.Some?
  }

  /** The three length checks applied to one text field, in the source's order. */
  function LengthProblem(n: nat, max: nat): (r: Option<Problem>)
    ensures r == None <==> MinLength <= n <= max
    ensures r == Some(Missing) <==> n == 0
    ensures r == Some(TooShort) <==> 0 < n < MinLength
    ensures r == Some(TooLong) <==> MinLength <= n && max < n
  {
    if n == 0 then Some(Missing)
    else if n < MinLength then Some(TooShort)
    else if n > max then Some(TooLong)
    else None
  }

  function CheckField(p: Program, f: ProgramField): Option<ValidationError>
  {
    match LengthProblem(|FieldValue(p, f)|, MaxLength(f))
    case None => None
    case Some(problem) => Some(ProgramFieldInvalid(f, problem))
  }

  /** ValidateProgram: None is Go's nil error. */
  function ValidateProgram(p: Program): (err: Option<ValidationError>)
    ensures err == None <==> ValidProgram(p)
    ensures err == Some(InProductionMissing) <==>
      FieldOk(p, Name) && FieldOk(p, Description) && FieldOk(p, Host) && FieldOk(p, Category) &&
      p.inProduction == None
    ensures err.Some? && err.value.ProgramFieldInvalid? ==>
      && (forall g :: Rank(g) < Rank(err.value.field) ==> FieldOk(p, g))
      && LengthProblem(|FieldValue(p, err.value.field)|, MaxLength(err.value.field)) == Some(err.value.problem)
  {
    if CheckField(p, Name).Some? then CheckField(p, Name)
    else if CheckField(p, Description).Some? then CheckField(p, Description)
    else if CheckField(p, Host).Some? then CheckField(p, Host)
    else if CheckField(p, Category).Some? then CheckField(p, Category)
    else if p.inProduction == None then Some(InProductionMissing)
    else None
  }

  /** When every earlier field passes, a bad field is reported with its own problem. */
  lemma FirstBadFieldReported(p: Program, f: ProgramField)
    requires forall g :: Rank(g) < Rank(f) ==> FieldOk(p, g)
    requires !FieldOk(p, f)
    ensures ValidateProgram(p) == Some(ProgramFieldInvalid(f, LengthProblem(|FieldValue(p, f)|, MaxLength(f)).value))
    ensures |FieldValue(p, f)| == 0 ==> ValidateProgram(p) == Some(ProgramFieldInvalid(f, Missing))
    ensures 0 < |FieldValue(p, f)| < MinLength ==> ValidateProgram(p) == Some(ProgramFieldInvalid(f, TooShort))
    ensures |FieldValue(p, f)| > MaxLength(f) ==> ValidateProgram(p) == Some(ProgramFieldInvalid(f, TooLong))
  {
  }

  /**
   * Fail-fast: once a field fails, the fields after it are not inspected. Any
   * program that agrees on the fields up to the failing one gets the same error.
   */
  lemma LaterFieldsNotInspected(p: Program, q: Program)
    requires ValidateProgram(p).Some? && ValidateProgram(p).value.ProgramFieldInvalid?
    requires forall g :: Rank(g) <= Rank(ValidateProgram(p).value.field) ==> FieldValue(q, g) == FieldValue(p, g)
    ensures ValidateProgram(q) == ValidateProgram(p)
  {
  }

  /** The upper bounds are inclusive: 52 (100 for the description) passes, one more fails. */
  lemma UpperBoundsInclusive(p: Program, f: ProgramField)
    requires forall g :: g != f ==> FieldOk(p, g)
    requires p.inProduction.Some?
    ensures |FieldValue(p, f)| == MaxLength(f) ==> ValidateProgram(p) == None
    ensures |FieldValue(p, f)| == MaxLength(f) + 1 ==> ValidateProgram(p) == Some(ProgramFieldInvalid(f, TooLong))
  {
    if |FieldValue(p, f)| == MaxLength(f) + 1 {
      FirstBadFieldReported(p, f);
    }
  }

  /** Only a nil InProduction is rejected; false is a value like true. */
  lemma InProductionFalseAccepted(p: Program)
    requires FieldOk(p, Name) && FieldOk(p, Description) && FieldOk(p, Host) && FieldOk(p, Category)
    ensures ValidateProgram(p.(inProduction := Some(false))) == None
    ensures ValidateProgram(p.(inProduction := None)) == Some(InProductionMissing)
  {
  }

  /** ValidateSchedule: only the description is checked. */
  function ValidateSchedule(s: Schedule): (err: Option<ValidationError>)
    ensures err == None <==> MinLength <= |s.description| <= MaxLongText
    ensures err == Some(ScheduleDescriptionInvalid(Missing)) <==> |s.description| == 0
    ensures err == Some(ScheduleDescriptionInvalid(TooShort)) <==> 0 < |s.description| < MinLength
    ensures err == Some(ScheduleDescriptionInvalid(TooLong)) <==> |s.description| > MaxLongText
  {
    match LengthProblem(|s.description|, MaxLongText)
    case None => None
    case Some(problem) => Some(ScheduleDescriptionInvalid(problem))
  }

  /** Program id, day and date play no part in a schedule's validity. */
  lemma ScheduleValidityIgnoresOtherFields(s: Schedule, t: Schedule)
    requires s.description == t.description
    ensures ValidateSchedule(s) == ValidateSchedule(t)
  {
  }
}
