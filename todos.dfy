/** The todo record, the fixed enumerations, the response shapes and the date
    library that the request handlers of app.js rely on. */
module Todos {

  datatype Option<T> = None | Some(value: T)

  /** One row of the `todo` table: columns id, todo, priority, status,
      category and due_date (read back as `dueDate`). */
  datatype Todo = Todo(id: int, todo: string, priority: string, status: string,
                       category: string, dueDate: string)

  const PriorityValues: set<string> := {"HIGH", "MEDIUM", "LOW"}
  const StatusValues: set<string> := {"TO DO", "IN PROGRESS", "DONE"}
  const CategoryValues: set<string> := {"WORK", "HOME", "LEARNING"}

  /** The two date-fns services the handlers call, taken as parameters:
      `isValid(s)` stands for `isValid(parseISO(s))` (the helper validateDate)
      and `format(s)` for `format(new Date(s), 'yyyy-MM-dd')`. */
  datatype DateLib = DateLib(isValid: string -> bool, format: string -> string)

  /** JavaScript truthiness of an optional request string: present and not "". */
  predicate Supplied(o: Option<string>)
  {
    o.Some? && o.value != ""
  }

  /** `s` is the `yyyy-MM-dd` rendering of some date string the validator accepts. */
  ghost predicate IsNormalized(d: DateLib, s: string)
  {
    exists x :: d.isValid(x) && d.format(x) == s
  }

  /** The row invariant every row written by the handlers keeps. */
  ghost predicate Conforms(t: Todo, d: DateLib)
  {
    && t.priority in PriorityValues
    && t.status in StatusValues
    && t.category in CategoryValues
    && IsNormalized(d, t.dueDate)
  }

  /** What a handler sends: a text message, one row, or a list of rows. */
  datatype Body = Text(message: string) | Row(row: Todo) | Rows(rows: set<Todo>)

  datatype Response = Response(code: int, body: Body)

  const InvalidTodoPriority := "Invalid Todo Priority"
  const InvalidTodoStatus := "Invalid Todo Status"
  const InvalidTodoCategory := "Invalid Todo Category"
  const InvalidDueDate := "Invalid Due Date"
  const TodoNotFound := "Todo Not Found"
  const TodoSuccessfullyAdded := "Todo Successfully Added"
  const NoUpdatesProvided := "No Updates Provided"
  const StatusUpdated := "Status Updated"
  const PriorityUpdated := "Priority Updated"
  const TodoUpdated := "Todo Updated"
  const CategoryUpdated := "Category Updated"
  const DueDateUpdated := "Due Date Updated"
  const TodoDeleted := "Todo Deleted"
  const ServerError := "Server Error"

  /** `response.send(message)`: status 200 with a text body. */
  function Send(message: string): Response
  {
    Response(200, Text(message))
  }
}
