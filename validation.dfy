/** The field validation chain shared by listing, create and update: four
    checks in a fixed order, the first failing one decides the 400 message. */
module Validation {
  import opened Todos

  /** The four checks, in the order every handler runs them. */
  datatype Check = PriorityCheck | StatusCheck | CategoryCheck | DueDateCheck

  /** Position of a check in the chain. */
  function CheckRank(c: Check): nat
  {
    match c
    case PriorityCheck => 0
    case StatusCheck => 1
    case CategoryCheck => 2
    case DueDateCheck => 3
  }

  /** The 400 message a failing check sends. */
  function Rejection(c: Check): string
  {
    match c
    case PriorityCheck => InvalidTodoPriority
    case StatusCheck => InvalidTodoStatus
    case CategoryCheck => InvalidTodoCategory
    case DueDateCheck => InvalidDueDate
  }

  /** The request fields a handler validates; None is a field left out of the request. */
  datatype Fields = Fields(priority: Option<string>, status: Option<string>,
                           category: Option<string>, dueDate: Option<string>)

  function Field(x: Fields, c: Check): Option<string>
  {
    match c
    case PriorityCheck => x.priority
    case StatusCheck => x.status
    case CategoryCheck => x.category
    case DueDateCheck => x.dueDate
  }

  /** One check on its own. With `required` false (listing and update), a field
      that is absent or empty is skipped; with `required` true (create), the
      field must be present and allowed, and a missing one fails. */
  predicate Passes(c: Check, x: Fields, required: bool, d: DateLib)
  {
    var o := Field(x, c);
    if !required && !Supplied(o) then true
    else
      o.Some? &&
      match c
      case PriorityCheck => o.value in PriorityValues
      case StatusCheck => o.value in StatusValues
      case CategoryCheck => o.value in CategoryValues
      case DueDateCheck => d.isValid(o.value)
  }

  datatype Verdict = Accept | Reject(failed: Check)

  /** The if-chain of app.js: priority, then status, then category, then the
      due date; the first failure short-circuits the rest. */
  function Validate(x: Fields, required: bool, d: DateLib): (v: Verdict)
    ensures v.Accept? <==> forall c :: Passes(c, x, required, d)
    ensures v.Reject? ==>
              && !Passes(v.failed, x, required, d)
              && forall e :: CheckRank(e) < CheckRank(v.failed) ==> Passes(e, x, required, d)
  {
    if !Passes(PriorityCheck, x, required, d) then Reject(PriorityCheck)
    else if !Passes(StatusCheck, x, required, d) then Reject(StatusCheck)
    else if !Passes(CategoryCheck, x, required, d) then Reject(CategoryCheck)
    else if !Passes(DueDateCheck, x, required, d) then Reject(DueDateCheck)
    else Accept
  }

  /** The verdict names exactly the earliest failing check: a failing check is
      reported if and only if every check before it passes. */
  lemma FirstFailureWins(x: Fields, required: bool, d: DateLib, c: Check)
    ensures Validate(x, required, d) == Reject(c) <==>
              !Passes(c, x, required, d) &&
              forall e :: CheckRank(e) < CheckRank(c) ==> Passes(e, x, required, d)
  {
  }

  /** Create's chain is stricter than the optional one: what create accepts,
      listing and update accept; and once every field is supplied the two
      chains give the same verdict. */
  lemma RequiredIsStricter(x: Fields, d: DateLib)
    ensures Validate(x, true, d).Accept? ==> Validate(x, false, d).Accept?
    ensures (forall c :: Supplied(Field(x, c))) ==> Validate(x, true, d) == Validate(x, false, d)
  {
  }
}
