/**
 * The five task handlers of backend/app.py, as functions of the table they
 * run against. `GetTask` and `ListTasks` only query; `CreateResult`,
 * `UpdateResult` and `DeleteResult` give the response together with the
 * table after the request, and are the specifications the methods of
 * `Store.TaskStore` are proved against.
 */
module Handlers {
  import opened Wrappers
  import opened Models
  import opened Validation

  /** A handler's response: success with a body, 400 (title check) or 404 (no such id). */
  datatype Outcome<T> = Ok(value: T) | BadRequest | NotFound

  /** A response together with the table as the request leaves it. */
  datatype Reply<T> = Reply(outcome: Outcome<T>, after: Table)

  // ---------------------------------------------------------------- queries

  /** GET /tasks/{id}: the row stored under `id`, or 404. */
  function GetTask(table: Table, id: Id): (r: Outcome<Task>)
    requires PrimaryKeyed(table)
    ensures r.NotFound? <==> id !in table
    ensures r.Ok? ==> id in table && r.value == FromAttributes(table[id]) && r.value.id == id
    ensures !r.BadRequest?
  {
    if id in table then Ok(FromAttributes(table[id])) else NotFound
  }

  /** Whether a row passes the optional `completed` filter of GET /tasks. */
  predicate Matches(row: TaskModel, completed: Option<bool>) {
    completed.None? || row.completed == completed.value
  }

  /** The ids of the rows that pass the filter. */
  function MatchingIds(table: Table, completed: Option<bool>): set<Id> {
    set id | id in table && Matches(table[id], completed)
  }

  /**
   * GET /tasks?completed=c: the rows that pass the filter, as response
   * bodies, in no particular order. A row is listed exactly when it passes,
   * and everything listed is a row of the table that passes.
   */
  function ListTasks(table: Table, completed: Option<bool>): (r: set<Task>)
    requires PrimaryKeyed(table)
    ensures forall id :: id in table ==> (FromAttributes(table[id]) in r <==> Matches(table[id], completed))
    ensures forall t :: t in r ==> t.id in table && t == FromAttributes(table[t.id]) && Matches(table[t.id], completed)
  {
    set id | id in MatchingIds(table, completed) :: FromAttributes(table[id])
  }

  // ------------------------------------------------------------- mutations

  /**
   * POST /tasks. A title whose stripped length exceeds 200 gives 400 and
   * leaves the table as it was; every other title, blank ones included, is
   * stored untrimmed under the fresh id with the caller's description and
   * completed flag, and with the `created_at` column default in place of
   * whatever `created_at` the caller sent. No other row changes.
   */
  function CreateResult(table: Table, taskIn: TaskCreate, freshId: Id, createdAtDefault: Timestamp): (r: Reply<Task>)
    requires PrimaryKeyed(table) && freshId !in table
    ensures r.outcome.BadRequest? <==> !ValidTitle(taskIn.title)
    ensures !r.outcome.NotFound?
    ensures r.outcome.BadRequest? ==> r.after == table
    ensures r.outcome.Ok? ==>
      && r.after.Keys == table.Keys + {freshId}
      && (forall id :: id in table ==> r.after[id] == table[id])
      && r.outcome.value == Task(freshId, taskIn.(createdAt := Some(createdAtDefault)))
      && FromAttributes(r.after[freshId]) == r.outcome.value
    ensures PrimaryKeyed(r.after)
  {
    if !ValidTitle(taskIn.title) then
      Reply(BadRequest, table)
    else
      var newTask := TaskModel(
        id := freshId,
        title := taskIn.title,
        description := taskIn.description,
        completed := taskIn.completed,
        createdAt := Some(createdAtDefault));
      Reply(Ok(FromAttributes(newTask)), table[freshId := newTask])
  }

  /**
   * PUT /tasks/{id}. The title is checked first, so an oversized title
   * gives 400 even for an unknown id; then an unknown id gives 404. Both
   * leave the table as it was. Otherwise the row keeps its id and every
   * other column takes the request's value, `created_at` included (None
   * when the caller left it out); the response is the request body plus
   * the id, and no other row changes.
   */
  function UpdateResult(table: Table, id: Id, taskUpdate: TaskCreate): (r: Reply<Task>)
    requires PrimaryKeyed(table)
    ensures r.outcome.BadRequest? <==> !ValidTitle(taskUpdate.title)
    ensures r.outcome.NotFound? <==> ValidTitle(taskUpdate.title) && id !in table
    ensures !r.outcome.Ok? ==> r.after == table
    ensures r.outcome.Ok? ==>
      && r.after.Keys == table.Keys
      && (forall other :: other in table && other != id ==> r.after[other] == table[other])
      && r.outcome.value == Task(id, taskUpdate)
      && FromAttributes(r.after[id]) == r.outcome.value
    ensures PrimaryKeyed(r.after)
  {
    if !ValidTitle(taskUpdate.title) then
      Reply(BadRequest, table)
    else if id !in table then
      Reply(NotFound, table)
    else
      var dbTask := table[id].(
        title := taskUpdate.title,
        description := taskUpdate.description,
        completed := taskUpdate.completed,
        createdAt := taskUpdate.createdAt);
      Reply(Ok(FromAttributes(dbTask)), table[id := dbTask])
  }

  /**
   * DELETE /tasks/{id}. An unknown id gives 404 and leaves the table as it
   * was; otherwise exactly that row is removed (204, no body).
   */
  function DeleteResult(table: Table, id: Id): (r: Reply<()>)
    requires PrimaryKeyed(table)
    ensures r.outcome.NotFound? <==> id !in table
    ensures !r.outcome.BadRequest?
    ensures r.outcome.NotFound? ==> r.after == table
    ensures r.outcome.Ok? ==>
      && r.after.Keys == table.Keys - {id}
      && forall other :: other in r.after ==> r.after[other] == table[other]
    ensures PrimaryKeyed(r.after)
  {
    if id !in table then Reply(NotFound, table) else Reply(Ok(()), table - {id})
  }

  // ------------------------------------------------------------ fresh ids

  /** A bound on the lengths of the ids in a finite set. */
  ghost function LongestId(used: set<Id>): (n: nat)
    ensures forall id :: id in used ==> |id| <= n
  {
    if used == {} then 0
    else
      var id :| id in used;
      var rest := LongestId(used - {id});
      if |id| <= rest then rest else |id|
  }

  /**
   * An id outside any finite set of used ids: whatever rows the table holds,
   * the id generator that the create handler relies on can always succeed.
   */
  ghost function FreshId(used: set<Id>): (id: Id)
    ensures id !in used
  {
    seq(LongestId(used) + 1, _ => 'u')
  }

  // --------------------------------------------------------------- lemmas

  /** The response bodies of the rows with the given ids are as many as the ids: no two rows share an id. */
  lemma {:induction false} BodiesOfIds(table: Table, ids: set<Id>)
    requires PrimaryKeyed(table) && ids <= table.Keys
    ensures |set id | id in ids :: FromAttributes(table[id])| == |ids|
  {
    if ids != {} {
      var id :| id in ids;
      var rest := ids - {id};
      BodiesOfIds(table, rest);
      var bodies := set k | k in ids :: FromAttributes(table[k]);
      var restBodies := set k | k in rest :: FromAttributes(table[k]);
      assert bodies == restBodies + {FromAttributes(table[id])};
      assert FromAttributes(table[id]) !in restBodies;
    }
  }

  /** The list holds one body per matching row; with no filter, one per row. */
  lemma ListTasksSize(table: Table, completed: Option<bool>)
    requires PrimaryKeyed(table)
    ensures |ListTasks(table, completed)| == |MatchingIds(table, completed)|
    ensures completed.None? ==> |ListTasks(table, completed)| == |table|
  {
    BodiesOfIds(table, MatchingIds(table, completed));
    if completed.None? {
      assert MatchingIds(table, completed) == table.Keys;
    }
  }

  /** The completed and the open tasks split the unfiltered list between them. */
  lemma ListPartition(table: Table)
    requires PrimaryKeyed(table)
    ensures ListTasks(table, Some(true)) + ListTasks(table, Some(false)) == ListTasks(table, None)
    ensures ListTasks(table, Some(true)) !! ListTasks(table, Some(false))
  {
  }

  /** What create stores is what get then returns, with the title as sent. */
  lemma CreateThenGet(table: Table, taskIn: TaskCreate, freshId: Id, createdAtDefault: Timestamp)
    requires PrimaryKeyed(table) && freshId !in table
    requires ValidTitle(taskIn.title)
    ensures var r := CreateResult(table, taskIn, freshId, createdAtDefault);
            && r.outcome.Ok?
            && GetTask(r.after, freshId) == r.outcome
            && r.outcome.value.fields.title == taskIn.title
  {
  }

  /** A title of 201 letters `A` is refused by create with 400, and nothing is stored. */
  lemma CreateRefusesOversizedTitle(table: Table, freshId: Id, createdAtDefault: Timestamp)
    requires PrimaryKeyed(table) && freshId !in table
    ensures CreateResult(table, TaskBase(seq(201, _ => 'A')), freshId, createdAtDefault) == Reply(BadRequest, table)
  {
    LongTitleRejected(seq(201, _ => 'A'));
  }

  /** The `created_at` the caller sends to create has no effect at all. */
  lemma CreateIgnoresCreatedAt(table: Table, taskIn: TaskCreate, sent: Option<Timestamp>, freshId: Id, createdAtDefault: Timestamp)
    requires PrimaryKeyed(table) && freshId !in table
    ensures CreateResult(table, taskIn.(createdAt := sent), freshId, createdAtDefault)
         == CreateResult(table, taskIn, freshId, createdAtDefault)
  {
  }

  /** The title check runs before the lookup: an oversized title is a 400 even when the id is unknown. */
  lemma UpdateChecksTitleFirst(table: Table, id: Id, taskUpdate: TaskCreate)
    requires PrimaryKeyed(table) && id !in table
    requires !ValidTitle(taskUpdate.title)
    ensures UpdateResult(table, id, taskUpdate) == Reply(BadRequest, table)
  {
  }

  /** An update that leaves out `created_at` clears the stored creation time. */
  lemma UpdateClearsOmittedCreatedAt(table: Table, id: Id, title: string, description: Option<string>, completed: bool)
    requires PrimaryKeyed(table) && id in table
    requires ValidTitle(title)
    ensures var r := UpdateResult(table, id, TaskBase(title, description, completed));
            r.outcome.Ok? && r.after[id].createdAt == None
  {
  }

  /** Repeating an update gives the same response and the same table. */
  lemma UpdateIdempotent(table: Table, id: Id, taskUpdate: TaskCreate)
    requires PrimaryKeyed(table)
    ensures var first := UpdateResult(table, id, taskUpdate);
            UpdateResult(first.after, id, taskUpdate) == first
  {
  }

  /** After a delete, get on the same id is a 404. */
  lemma DeleteThenGet(table: Table, id: Id)
    requires PrimaryKeyed(table)
    ensures GetTask(DeleteResult(table, id).after, id) == NotFound
  {
  }

  /** In a table of one completed and one open row, each filter lists exactly the row with that flag. */
  lemma ListOfTwo(done: TaskModel, open: TaskModel)
    requires done.id != open.id && done.completed && !open.completed
    ensures var table := map[done.id := done, open.id := open];
            && ListTasks(table, Some(true)) == {FromAttributes(done)}
            && ListTasks(table, Some(false)) == {FromAttributes(open)}
  {
    var table := map[done.id := done, open.id := open];
    assert MatchingIds(table, Some(true)) == {done.id};
    assert MatchingIds(table, Some(false)) == {open.id};
  }

  /**
   * Two tasks created on an empty table, one completed and one not: each
   * filter lists exactly one of them, the one with that flag.
   */
  lemma FilteredListAfterTwoCreates(doneTitle: string, openTitle: string, a: Id, b: Id, createdAtDefault: Timestamp)
    requires a != b && ValidTitle(doneTitle) && ValidTitle(openTitle)
    ensures var done := TaskBase(doneTitle, completed := true);
            var open := TaskBase(openTitle, completed := false);
            var t1 := CreateResult(map[], done, a, createdAtDefault).after;
            var t2 := CreateResult(t1, open, b, createdAtDefault).after;
            && ListTasks(t2, Some(true)) == {Task(a, done.(createdAt := Some(createdAtDefault)))}
            && ListTasks(t2, Some(false)) == {Task(b, open.(createdAt := Some(createdAtDefault)))}
  {
    var done := TaskBase(doneTitle, completed := true);
    var open := TaskBase(openTitle, completed := false);
    var row1 := TaskModel(a, doneTitle, None, true, Some(createdAtDefault));
    var row2 := TaskModel(b, openTitle, None, false, Some(createdAtDefault));
    var t1 := CreateResult(map[], done, a, createdAtDefault).after;
    assert t1 == map[a := row1];
    var t2 := CreateResult(t1, open, b, createdAtDefault).after;
    assert t2 == map[a := row1, b := row2];
    ListOfTwo(row1, row2);
  }
}
