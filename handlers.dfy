/** The six request handlers of app.js over the `todo` table, kept in memory
    as a map from id to row. */
module Handlers {
  import opened Todos
  import opened Validation
  import opened Listing
  import opened Patching

  /** The body of POST /todos/. */
  datatype NewTodo = NewTodo(id: int, todo: string, priority: Option<string>,
                             category: Option<string>, status: Option<string>,
                             dueDate: Option<string>)

  /** The fields create validates; every one of them is required. */
  function CreateFields(b: NewTodo): Fields
  {
    Fields(b.priority, b.status, b.category, b.dueDate)
  }

  function ValueOf(o: Option<string>): string
  {
    if o.Some? then o.value else ""
  }

  /** The row an accepted create inserts, with the due date normalised. */
  function Created(b: NewTodo, d: DateLib): Todo
  {
    Todo(b.id, b.todo, ValueOf(b.priority), ValueOf(b.status), ValueOf(b.category),
         d.format(ValueOf(b.dueDate)))
  }

  /** An accepted create inserts the request's own values, due date normalised,
      and the inserted row keeps the row invariant. */
  lemma CreatedConforms(b: NewTodo, d: DateLib)
    requires Validate(CreateFields(b), true, d).Accept?
    ensures Created(b, d) == Todo(b.id, b.todo, b.priority.value, b.status.value,
                                  b.category.value, d.format(b.dueDate.value))
    ensures Conforms(Created(b, d), d)
  {
  }

  /** The 400 answer of a failed check. */
  function BadRequest(c: Check): Response
  {
    Response(400, Text(Rejection(c)))
  }

  /** The date the agenda is asked for passes validateDate (an absent one does not). */
  predicate DateAccepted(d: DateLib, date: Option<string>)
  {
    date.Some? && d.isValid(date.value)
  }

  /** Every row of the table keeps the row invariant. */
  ghost predicate TableConforms(rows: map<int, Todo>, d: DateLib)
  {
    forall id | id in rows :: Conforms(rows[id], d)
  }

  /** Storing a conforming row keeps a conforming table conforming. */
  lemma StoreConforming(rows: map<int, Todo>, id: int, t: Todo, d: DateLib)
    requires TableConforms(rows, d) && Conforms(t, d)
    ensures TableConforms(rows[id := t], d)
  {
  }

  /** Every row of the table is stored under its own id. */
  ghost predicate KeyedById(rows: map<int, Todo>)
  {
    forall id | id in rows :: rows[id].id == id
  }

  /** Storing a row under its own id keeps the table keyed by id. */
  lemma StoreUnderOwnId(rows: map<int, Todo>, t: Todo)
    requires KeyedById(rows)
    ensures KeyedById(rows[t.id := t])
  {
  }

  class TodoApp {
    /** The `todo` table, keyed by id. */
    var rows: map<int, Todo>
    /** The date library the handlers call. */
    const dates: DateLib

    /** Each row is stored under its own id. */
    ghost predicate Valid()
      reads this
    {
      KeyedById(rows)
    }

    /** Every row has allowed enumeration values and a normalised due date. */
    ghost predicate AllConform()
      reads this
    {
      TableConforms(rows, dates)
    }

    /** The table as the database file holds it when the server starts. */
    constructor (initial: map<int, Todo>, dates: DateLib)
      requires forall id | id in initial :: initial[id].id == id
      ensures Valid()
      ensures rows == initial && this.dates == dates
    {
      rows := initial;
      this.dates := dates;
    }

    /** GET /todos/: validate the filters, then list the rows matching all four. */
    method ListTodos(q: Query) returns (r: Response)
      ensures Validate(ListFields(q), false, dates).Reject? ==>
                r == BadRequest(Validate(ListFields(q), false, dates).failed)
      ensures Validate(ListFields(q), false, dates).Accept? ==>
                && r.code == 200 && r.body.Rows?
                && forall t :: t in r.body.rows <==> t in rows.Values && Matches(t, q)
      ensures q == NoFilters ==> r == Response(200, Rows(rows.Values))
    {
      var v := Validate(ListFields(q), false, dates);
      if v.Reject? {
        return BadRequest(v.failed);
      }
      if q == NoFilters {
        SelectNoFiltersIsAll(rows);
      }
      r := Response(200, Rows(Select(rows, q)));
    }

    /** GET /todos/:todoId/: the stored row, or 404. */
    method GetTodo(id: int) returns (r: Response)
      ensures id in rows ==> r == Response(200, Row(rows[id]))
      ensures id !in rows ==> r == Response(404, Text(TodoNotFound))
    {
      if id in rows {
        r := Response(200, Row(rows[id]));
      } else {
        r := Response(404, Text(TodoNotFound));
      }
    }

    /** GET /agenda/: an invalid date is refused before the table is read;
        otherwise the rows due on the normalised date. */
    method Agenda(date: Option<string>) returns (r: Response)
      ensures !DateAccepted(dates, date) ==> r == Response(400, Text(InvalidDueDate))
      ensures DateAccepted(dates, date) ==>
                && r.code == 200 && r.body.Rows?
                && forall t :: t in r.body.rows <==>
                                 t in rows.Values && t.dueDate == dates.format(date.value)
    {
      if !DateAccepted(dates, date) {
        return Response(400, Text(InvalidDueDate));
      }
      var dueDate := dates.format(date.value);
      r := Response(200, Rows(DueOn(rows, dueDate)));
    }

    /** POST /todos/: validate all four fields, normalise the date, insert. */
    method CreateTodo(body: NewTodo) returns (r: Response)
      requires Valid()
      modifies this
      ensures Valid()
      ensures Validate(CreateFields(body), true, dates).Reject? ==>
                && r == BadRequest(Validate(CreateFields(body), true, dates).failed)
                && rows == old(rows)
      ensures Validate(CreateFields(body), true, dates).Accept? && body.id in old(rows) ==>
                r == Response(500, Text(ServerError)) && rows == old(rows)
      ensures Validate(CreateFields(body), true, dates).Accept? && body.id !in old(rows) ==>
                && r == Send(TodoSuccessfullyAdded)
                && rows == old(rows)[body.id := Created(body, dates)]
      ensures old(AllConform()) ==> AllConform()
    {
      var v := Validate(CreateFields(body), true, dates);
      if v.Reject? {
        return BadRequest(v.failed);
      }
      if body.id in rows {
        // the primary key refuses the INSERT and the handler answers 500
        return Response(500, Text(ServerError));
      }
      CreatedConforms(body, dates);
      StoreUnderOwnId(rows, Created(body, dates));
      if AllConform() {
        StoreConforming(rows, body.id, Created(body, dates), dates);
      }
      rows := rows[body.id := Created(body, dates)];
      r := Send(TodoSuccessfullyAdded);
    }

    /** PUT /todos/:todoId/: look up, validate what was supplied, then write
        the changed columns (WriteChanges). */
    method UpdateTodo(id: int, body: UpdateBody) returns (r: Response)
      requires Valid()
      modifies this
      ensures Valid()
      ensures id !in old(rows) ==> r == Response(404, Text(TodoNotFound)) && rows == old(rows)
      ensures id in old(rows) && Validate(UpdateFields(body), false, dates).Reject? ==>
                && r == BadRequest(Validate(UpdateFields(body), false, dates).failed)
                && rows == old(rows)
      ensures id in old(rows) && Validate(UpdateFields(body), false, dates).Accept? ==>
                Written(old(rows), id, old(rows)[id], body, rows, r)
      ensures old(AllConform()) ==> AllConform()
    {
      if id !in rows {
        return Response(404, Text(TodoNotFound));
      }
      var existing := rows[id];
      var v := Validate(UpdateFields(body), false, dates);
      if v.Reject? {
        return BadRequest(v.failed);
      }
      r := WriteChanges(id, existing, body);
    }

    /** The outcome of an accepted update of row `t`, stored under `id`: with
        no changed column the table stays and the answer is "No Updates
        Provided"; otherwise only that row is replaced, by its patched form,
        and the answer is the message of the first changed column. */
    ghost predicate Written(before: map<int, Todo>, id: int, t: Todo, body: UpdateBody,
                            after: map<int, Todo>, r: Response)
    {
      if ChangedColumns(t, body, dates) == {} then
        r == Send(NoUpdatesProvided) && after == before
      else
        && after == before[id := Patched(t, PendingUpdates(t, body, dates))]
        && r == Send(UpdatedMessage(Reported(ChangedColumns(t, body, dates))))
    }

    /** The second half of the update handler: collect the changed columns,
        write them if there are any, and choose the message. */
    method WriteChanges(id: int, existing: Todo, body: UpdateBody) returns (r: Response)
      requires Valid() && id in rows && rows[id] == existing
      requires Validate(UpdateFields(body), false, dates).Accept?
      modifies this
      ensures Valid()
      ensures Written(old(rows), id, existing, body, rows, r)
      ensures old(AllConform()) ==> AllConform()
    {
      var updates := CollectUpdates(existing, body, dates);
      PendingEmptyIffUnchanged(existing, body, dates);
      if updates != map[] {
        var patched := Patched(existing, updates);
        StoreUnderOwnId(rows, patched);
        if AllConform() {
          PatchedConforms(existing, body, dates);
          StoreConforming(rows, id, patched, dates);
        }
        rows := rows[id := patched];
        r := Send(UpdateMessage(existing, body, dates));
      } else {
        r := Send(NoUpdatesProvided);
      }
    }

    /** DELETE /todos/:todoId/: remove the row if there is one; always "Todo Deleted". */
    method DeleteTodo(id: int) returns (r: Response)
      requires Valid()
      modifies this
      ensures Valid()
      ensures rows == old(rows) - {id}
      ensures r == Send(TodoDeleted)
      ensures old(AllConform()) ==> AllConform()
    {
      rows := rows - {id};
      r := Send(TodoDeleted);
    }
  }
}
