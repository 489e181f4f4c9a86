/** The decision logic of PUT /todos/:todoId/: which columns a request
    changes, the `updates` object built from them, the row after the UPDATE,
    and the single message the handler reports. */
module Patching {
  import opened Todos
  import Validation

  /** The body of an update: any subset of the five fields. */
  datatype UpdateBody = UpdateBody(status: Option<string>, priority: Option<string>,
                                   todo: Option<string>, category: Option<string>,
                                   dueDate: Option<string>)

  /** The fields an update validates (the text field is not validated). */
  function UpdateFields(b: UpdateBody): Validation.Fields
  {
    Validation.Fields(b.priority, b.status, b.category, b.dueDate)
  }

  /** The five columns an update may write. */
  datatype Column = StatusColumn | PriorityColumn | TodoColumn | CategoryColumn | DueDateColumn

  const AllColumns: set<Column> :=
    {StatusColumn, PriorityColumn, TodoColumn, CategoryColumn, DueDateColumn}

  lemma ColumnInAll(c: Column)
    ensures c in AllColumns
  {
  }

  /** The order in which the handler looks for a change to report. */
  const Precedence: seq<Column> :=
    [StatusColumn, PriorityColumn, TodoColumn, CategoryColumn, DueDateColumn]

  /** The position of a column in Precedence. */
  function ColumnRank(c: Column): (k: nat)
    ensures k < |Precedence| && Precedence[k] == c
  {
    match c
    case StatusColumn => 0
    case PriorityColumn => 1
    case TodoColumn => 2
    case CategoryColumn => 3
    case DueDateColumn => 4
  }

  /** The stored value of a column. */
  function Stored(t: Todo, c: Column): string
  {
    match c
    case StatusColumn => t.status
    case PriorityColumn => t.priority
    case TodoColumn => t.todo
    case CategoryColumn => t.category
    case DueDateColumn => t.dueDate
  }

  /** The value the request asks a column to take, the due date normalised;
      None when the field is absent or empty. */
  function Requested(b: UpdateBody, c: Column, d: DateLib): Option<string>
  {
    match c
    case StatusColumn => if Supplied(b.status) then b.status else None
    case PriorityColumn => if Supplied(b.priority) then b.priority else None
    case TodoColumn => if Supplied(b.todo) then b.todo else None
    case CategoryColumn => if Supplied(b.category) then b.category else None
    case DueDateColumn => if Supplied(b.dueDate) then Some(d.format(b.dueDate.value)) else None
  }

  /** The request supplies column `c` with a value other than the stored one. */
  predicate Changes(t: Todo, b: UpdateBody, c: Column, d: DateLib)
  {
    Requested(b, c, d).Some? && Requested(b, c, d).value != Stored(t, c)
  }

  function ChangedColumns(t: Todo, b: UpdateBody, d: DateLib): set<Column>
  {
    set c | c in AllColumns && Changes(t, b, c, d)
  }

  /** The `updates` object: each changed column with the value it is to hold. */
  function PendingUpdates(t: Todo, b: UpdateBody, d: DateLib): map<Column, string>
  {
    map c | c in ChangedColumns(t, b, d) :: Requested(b, c, d).value
  }

  /** The entry for column `c` is what the pending updates hold for it. */
  ghost predicate AgreesOn(u: map<Column, string>, t: Todo, b: UpdateBody, d: DateLib, c: Column)
  {
    (c in u <==> Changes(t, b, c, d)) && (c in u ==> u[c] == Requested(b, c, d).value)
  }

  /** Builds `updates` field by field, as the handler does, and arrives at
      exactly the changed columns with their new values. */
  method CollectUpdates(t: Todo, b: UpdateBody, d: DateLib) returns (updates: map<Column, string>)
    ensures updates == PendingUpdates(t, b, d)
  {
    updates := map[];
    if Supplied(b.status) && b.status.value != t.status {
      updates := updates[StatusColumn := b.status.value];
    }
    assert AgreesOn(updates, t, b, d, StatusColumn);
    if Supplied(b.priority) && b.priority.value != t.priority {
      updates := updates[PriorityColumn := b.priority.value];
    }
    assert AgreesOn(updates, t, b, d, PriorityColumn);
    if Supplied(b.todo) && b.todo.value != t.todo {
      updates := updates[TodoColumn := b.todo.value];
    }
    assert AgreesOn(updates, t, b, d, TodoColumn);
    if Supplied(b.category) && b.category.value != t.category {
      updates := updates[CategoryColumn := b.category.value];
    }
    assert AgreesOn(updates, t, b, d, CategoryColumn);
    if Supplied(b.dueDate) && d.format(b.dueDate.value) != t.dueDate {
      var formattedDueDate := d.format(b.dueDate.value);
      updates := updates[DueDateColumn := formattedDueDate];
    }
    assert AgreesOn(updates, t, b, d, DueDateColumn);
    assert AgreesOn(updates, t, b, d, StatusColumn);
    assert AgreesOn(updates, t, b, d, PriorityColumn);
    assert AgreesOn(updates, t, b, d, TodoColumn);
    assert AgreesOn(updates, t, b, d, CategoryColumn);
    AgreementIsPending(updates, t, b, d);
  }

  lemma AgreementIsPending(u: map<Column, string>, t: Todo, b: UpdateBody, d: DateLib)
    requires AgreesOn(u, t, b, d, StatusColumn) && AgreesOn(u, t, b, d, PriorityColumn)
    requires AgreesOn(u, t, b, d, TodoColumn) && AgreesOn(u, t, b, d, CategoryColumn)
    requires AgreesOn(u, t, b, d, DueDateColumn)
    ensures u == PendingUpdates(t, b, d)
  {
    var pending := PendingUpdates(t, b, d);
    forall c ensures (c in u <==> c in pending) && (c in u ==> u[c] == pending[c]) {
      ColumnInAll(c);
      match c
      case StatusColumn =>
      case PriorityColumn =>
      case TodoColumn =>
      case CategoryColumn =>
      case DueDateColumn =>
    }
  }

  /** The `updates` object is empty exactly when no column changes. */
  lemma PendingEmptyIffUnchanged(t: Todo, b: UpdateBody, d: DateLib)
    ensures PendingUpdates(t, b, d) == map[] <==> ChangedColumns(t, b, d) == {}
  {
    assert PendingUpdates(t, b, d).Keys == ChangedColumns(t, b, d);
  }

  /** The row after `UPDATE todo SET <updates> WHERE id = ...`. */
  function Patched(t: Todo, u: map<Column, string>): (r: Todo)
    ensures r.id == t.id
    ensures forall c :: Stored(r, c) == if c in u then u[c] else Stored(t, c)
  {
    Todo(t.id,
         if TodoColumn in u then u[TodoColumn] else t.todo,
         if PriorityColumn in u then u[PriorityColumn] else t.priority,
         if StatusColumn in u then u[StatusColumn] else t.status,
         if CategoryColumn in u then u[CategoryColumn] else t.category,
         if DueDateColumn in u then u[DueDateColumn] else t.dueDate)
  }

  /** An update writes exactly the changed columns: those and only those
      differ afterwards, each holding the requested value, and the id stays. */
  lemma UpdateWritesExactlyChanges(t: Todo, b: UpdateBody, d: DateLib)
    ensures Patched(t, PendingUpdates(t, b, d)).id == t.id
    ensures forall c :: Stored(Patched(t, PendingUpdates(t, b, d)), c) != Stored(t, c)
                        <==> c in ChangedColumns(t, b, d)
    ensures forall c :: c in ChangedColumns(t, b, d) ==>
                          Stored(Patched(t, PendingUpdates(t, b, d)), c) == Requested(b, c, d).value
  {
  }

  /** Nothing is written exactly when every supplied field (the due date after
      normalising) already equals the stored value. */
  lemma NoChangeIffAllEqual(t: Todo, b: UpdateBody, d: DateLib)
    ensures ChangedColumns(t, b, d) == {} <==>
              forall c :: Requested(b, c, d).Some? ==> Requested(b, c, d).value == Stored(t, c)
    ensures ChangedColumns(t, b, d) == {} ==> Patched(t, PendingUpdates(t, b, d)) == t
  {
    if ChangedColumns(t, b, d) == {} {
      forall c | Requested(b, c, d).Some? ensures Requested(b, c, d).value == Stored(t, c) {
        ColumnInAll(c);
        assert c !in ChangedColumns(t, b, d);
      }
    }
  }

  /** Sending the same update a second time changes nothing, so the second
      answer is "No Updates Provided". */
  lemma RepeatedUpdateChangesNothing(t: Todo, b: UpdateBody, d: DateLib)
    ensures ChangedColumns(Patched(t, PendingUpdates(t, b, d)), b, d) == {}
  {
  }

  /** An update that passes validation keeps a conforming row conforming. */
  lemma PatchedConforms(t: Todo, b: UpdateBody, d: DateLib)
    requires Conforms(t, d)
    requires Validation.Validate(UpdateFields(b), false, d).Accept?
    ensures Conforms(Patched(t, PendingUpdates(t, b, d)), d)
  {
  }

  /** The index of the first column of `order` that is in `changed`. */
  function FirstIndex(order: seq<Column>, changed: set<Column>): (k: nat)
    requires exists i :: 0 <= i < |order| && order[i] in changed
    ensures k < |order| && order[k] in changed
    ensures forall j :: 0 <= j < k ==> order[j] !in changed
    decreases |order|
  {
    if order[0] in changed then 0
    else
      assert exists i :: 0 <= i < |order[1..]| && order[1..][i] in changed by {
        var i :| 0 <= i < |order| && order[i] in changed;
        assert order[1..][i - 1] == order[i];
      }
      1 + FirstIndex(order[1..], changed)
  }

  /** The column whose change is reported: the changed one earliest in Precedence. */
  function Reported(changed: set<Column>): (c: Column)
    requires changed != {}
    ensures c in changed
    ensures forall e :: e in changed ==> ColumnRank(c) <= ColumnRank(e)
  {
    var e :| e in changed;
    assert Precedence[ColumnRank(e)] in changed;
    Precedence[FirstIndex(Precedence, changed)]
  }

  /** The message that reports a change to a column. */
  function UpdatedMessage(c: Column): string
  {
    match c
    case StatusColumn => StatusUpdated
    case PriorityColumn => PriorityUpdated
    case TodoColumn => TodoUpdated
    case CategoryColumn => CategoryUpdated
    case DueDateColumn => DueDateUpdated
  }

  const UpdateMessages: set<string> :=
    {StatusUpdated, PriorityUpdated, TodoUpdated, CategoryUpdated, DueDateUpdated}

  /** The handler's message chain after a write, re-testing the request
      against the row read before the write. */
  function UpdateMessage(t: Todo, b: UpdateBody, d: DateLib): (m: string)
    requires ChangedColumns(t, b, d) != {}
    ensures m == UpdatedMessage(Reported(ChangedColumns(t, b, d)))
    ensures m in UpdateMessages
  {
    var changed := ChangedColumns(t, b, d);
    if Supplied(b.status) && b.status.value != t.status then
      ReportedIs(changed, StatusColumn);
      StatusUpdated
    else if Supplied(b.priority) && b.priority.value != t.priority then
      ReportedIs(changed, PriorityColumn);
      PriorityUpdated
    else if Supplied(b.todo) && b.todo.value != t.todo then
      ReportedIs(changed, TodoColumn);
      TodoUpdated
    else if Supplied(b.category) && b.category.value != t.category then
      ReportedIs(changed, CategoryColumn);
      CategoryUpdated
    else
      assert Reported(changed) !in {StatusColumn, PriorityColumn, TodoColumn, CategoryColumn};
      DueDateUpdated
  }

  /** A changed column with no changed column before it in Precedence is the reported one. */
  lemma ReportedIs(changed: set<Column>, c: Column)
    requires c in changed
    requires forall j :: 0 <= j < ColumnRank(c) ==> Precedence[j] !in changed
    ensures Reported(changed) == c
  {
  }
}
