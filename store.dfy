/**
 * The database session the handlers of backend/app.py change: table `task`
 * held as a map from id to row. `CreateTask`, `UpdateTask` and `DeleteTask`
 * change it step by step, as the handlers' `add`, `update` and `delete`
 * calls do, and each is proved to leave exactly the response and the table
 * that `Handlers.CreateResult`, `Handlers.UpdateResult` and
 * `Handlers.DeleteResult` describe. The read-only handlers are
 * `Handlers.GetTask` and `Handlers.ListTasks` applied to `tasks`.
 */
module Store {
  import opened Wrappers
  import opened Models
  import opened Validation
  import opened Handlers

  class TaskStore {
    /** The rows of table `task`, by id. */
    var tasks: Table
    /** The `created_at` column default: one instant, taken when the models module is loaded. */
    const createdAtDefault: Timestamp

    /** Every row is stored under its own id, the primary key. */
    ghost predicate Valid()
      reads this
    {
      PrimaryKeyed(tasks)
    }

    /**
     * The session over the rows already persisted in table `task` (none
     * when `create_all` has just made it), with the `created_at` default
     * fixed at the load time `loadedAt`.
     */
    constructor (rows: Table, loadedAt: Timestamp)
      requires PrimaryKeyed(rows)
      ensures Valid()
      ensures tasks == rows && createdAtDefault == loadedAt
    {
      tasks := rows;
      createdAtDefault := loadedAt;
    }

    /**
     * POST /tasks. `freshId` is the value of `uuid4()`, which is assumed
     * not to be in use already (`Handlers.FreshId` shows one always exists).
     */
    method CreateTask(taskIn: TaskCreate, freshId: Id) returns (r: Outcome<Task>)
      requires Valid() && freshId !in tasks
      modifies this`tasks
      ensures Valid()
      ensures Reply(r, tasks) == CreateResult(old(tasks), taskIn, freshId, createdAtDefault)
    {
      if !ValidTitle(taskIn.title) {
        return BadRequest;
      }
      var newTask := TaskModel(
        id := freshId,
        title := taskIn.title,
        description := taskIn.description,
        completed := taskIn.completed,
        createdAt := Some(createdAtDefault));
      tasks := tasks[freshId := newTask];
      r := Ok(FromAttributes(tasks[freshId]));
    }

    /** PUT /tasks/{taskId}: title check, then lookup, then every column but `id` overwritten. */
    method UpdateTask(taskId: Id, taskUpdate: TaskCreate) returns (r: Outcome<Task>)
      requires Valid()
      modifies this`tasks
      ensures Valid()
      ensures Reply(r, tasks) == UpdateResult(old(tasks), taskId, taskUpdate)
    {
      if !ValidTitle(taskUpdate.title) {
        return BadRequest;
      }
      if taskId !in tasks {
        return NotFound;
      }
      var dbTask := tasks[taskId];
      tasks := tasks[taskId := dbTask.(
        title := taskUpdate.title,
        description := taskUpdate.description,
        completed := taskUpdate.completed,
        createdAt := taskUpdate.createdAt)];
      r := Ok(FromAttributes(tasks[taskId]));
    }

    /** DELETE /tasks/{taskId}: lookup, then removal of that one row. */
    method DeleteTask(taskId: Id) returns (r: Outcome<()>)
      requires Valid()
      modifies this`tasks
      ensures Valid()
      ensures Reply(r, tasks) == DeleteResult(old(tasks), taskId)
    {
      if taskId !in tasks {
        return NotFound;
      }
      tasks := tasks - {taskId};
      r := Ok(());
    }
  }

  /**
   * The update test's sequence against one store: create an open task,
   * mark it completed, read it back, then send an oversized title. The
   * oversized update is refused and leaves the task completed. Its
   * `created_at` is None, because the first update's body left it out.
   */
  method ToggleCompleted(store: TaskStore, taskId: Id) returns (refused: Outcome<Task>)
    requires store.Valid() && taskId !in store.tasks
    modifies store
    ensures store.Valid()
    ensures refused == BadRequest
    ensures store.tasks.Keys == old(store.tasks.Keys) + {taskId}
    ensures forall id :: id in old(store.tasks) ==> store.tasks[id] == old(store.tasks[id])
    ensures var row := store.tasks[taskId];
            row.id == taskId && row.title == "Task da completare" && row.completed && row.createdAt == None
  {
    var title := "Task da completare";
    ShortTitleAccepted(title);
    var created := store.CreateTask(TaskBase(title, Some("Inizialmente non completato"), false), taskId);
    assert created.Ok?;
    var initial := created.value;
    var updated := store.UpdateTask(taskId, TaskBase(initial.fields.title, initial.fields.description, true));
    assert updated.Ok? && updated.value.id == taskId && updated.value.fields.completed;
    var read := GetTask(store.tasks, taskId);
    assert read.Ok? && read.value.fields.completed;
    var stored := store.tasks;
    var longTitle := seq(201, _ => 'A');
    LongTitleRejected(longTitle);
    refused := store.UpdateTask(taskId, TaskBase(longTitle, Some("Titolo troppo lungo"), true));
    assert store.tasks == stored;
  }
}
