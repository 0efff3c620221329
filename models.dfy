/**
 * The records of the task service: the persisted row of table `task`
 * (`TaskModel`) and the request and response bodies of the API
 * (`TaskBase`, `TaskCreate`, `Task`), see backend/models.py.
 */
module Models {
  import opened Wrappers

  /** A task identifier: the string form of a UUID, the `id` column. Opaque here. */
  type Id = string

  /** A date-time value, kept as an opaque token. */
  datatype Timestamp = Timestamp(token: nat)

  /**
   * One row of table `task`. Column defaults (`completed` false, `created_at`
   * the instant the module was loaded) are applied by the handler that inserts
   * the row; the `String(200)` width of `title` is not enforced.
   */
  datatype TaskModel = TaskModel(
    id: Id,
    title: string,
    description: Option<string>,
    completed: bool,
    createdAt: Option<Timestamp>)

  /**
   * The fields shared by request and response bodies. A field the caller
   * leaves out takes the default written here; `title` is required.
   */
  datatype TaskBase = TaskBase(
    title: string,
    description: Option<string> := None,
    completed: bool := false,
    createdAt: Option<Timestamp> := None)

  /** The body of a create or an update request: exactly the shared fields, no id. */
  type TaskCreate = TaskBase

  /** A response body: the shared fields plus the task's id. */
  datatype Task = Task(id: Id, fields: TaskBase)

  /** The table `task`, keyed by its primary key. */
  type Table = map<Id, TaskModel>

  /** `id` is the primary key: each row is stored under its own id, so no two rows share one. */
  ghost predicate PrimaryKeyed(table: Table) {
    forall id :: id in table ==> table[id].id == id
  }

  /** Reading a response body off a row (`from_attributes`): every column maps to the field of that name. */
  function FromAttributes(row: TaskModel): Task {
    Task(row.id, TaskBase(row.title, row.description, row.completed, row.createdAt))
  }

  /** No information is lost between a row and its response body. */
  lemma FromAttributesInjective(a: TaskModel, b: TaskModel)
    ensures FromAttributes(a) == FromAttributes(b) <==> a == b
  {
  }

  /** A body that only gives `title` has description None, completed false and created_at None. */
  lemma OmittedFieldDefaults(title: string)
    ensures var body: TaskCreate := TaskBase(title);
            body.description == None && !body.completed && body.createdAt == None
  {
  }
}
