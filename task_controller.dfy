/** controllers/taskController.js: the task handlers behind the router.
    Every handler runs inside `try`, so a failing store call gives 500.
    The parameter `outage` says that every store call made while handling
    the request fails. */
module TaskController {
  import opened Wrappers
  import opened JsText
  import opened Decimal
  import opened Store
  import opened Crypto
  import opened Http

  /** getTasks: 200 with exactly the caller's tasks, or 500. */
  method GetTasks(db: Db, caller: Claims, outage: bool) returns (r: Response)
    ensures outage ==> r == Response(500, Text("Internal Server Error"))
    ensures !outage ==> r.Response? && r.status == 200 && r.body.TaskList?
    ensures !outage ==> forall id :: id in r.body.tasks <==> id in db.tasks && db.tasks[id].userId == caller.userId
    ensures !outage ==> forall id :: id in r.body.tasks ==> r.body.tasks[id] == db.tasks[id]
  {
    if outage {
      return Response(500, Text("Internal Server Error"));
    }
    var tasks := OwnedBy(db.tasks, caller.userId);
    return Response(200, TaskList(tasks));
  }

  /** addTask: a missing or empty text gives 400 and stores nothing (text
      is not trimmed, so a blank text is accepted); otherwise exactly one
      task, owned by the caller, is stored and returned with 201. */
  method AddTask(db: Db, caller: Claims, text: Option<string>, outage: bool) returns (r: Response)
    requires db.Valid()
    modifies db
    ensures db.Valid()
    ensures !Truthy(text) ==> r == Response(400, Message("Task text is required")) && unchanged(db)
    ensures Truthy(text) && outage ==>
      r == Response(500, Message("Internal server error")) && unchanged(db)
    ensures Truthy(text) && !outage ==>
      && old(db.nextId) !in old(db.tasks)
      && db.tasks == old(db.tasks)[old(db.nextId) := Task(text.value, caller.userId)]
      && db.users == old(db.users)
      && r == Response(201, TaskJson(old(db.nextId), Task(text.value, caller.userId)))
  {
    if !Truthy(text) {
      return Response(400, Message("Task text is required"));
    }
    if outage {
      return Response(500, Message("Internal server error"));
    }
    var task := Task(text.value, caller.userId);
    var id := db.InsertTask(task);
    return Response(201, TaskJson(id, task));
  }

  /** deleteTask: an unknown id gives 404 and someone else's task 403, each
      with the store unchanged; otherwise exactly that task is removed and
      200 is sent. A store failure, or an id that is not an identifier,
      gives 500. */
  method DeleteTask(db: Db, caller: Claims, id: string, outage: bool) returns (r: Response)
    requires db.Valid()
    modifies db
    ensures db.Valid()
    ensures outage || ParseNat(id).None? ==>
      r == Response(500, Text("Internal Server Error")) && unchanged(db)
    ensures !outage && ParseNat(id).Some? ==>
      var tid := ParseNat(id).value;
      if tid !in old(db.tasks) then
        r == Response(404, Text("Task not found")) && unchanged(db)
      else if old(db.tasks)[tid].userId != caller.userId then
        r == Response(403, Text("You are not authorized to delete this task")) && unchanged(db)
      else
        && db.tasks == old(db.tasks) - {tid}
        && db.users == old(db.users) && db.nextId == old(db.nextId)
        && r == Response(200, Text("Task deleted"))
  {
    if outage {
      return Response(500, Text("Internal Server Error"));
    }
    var tid := ParseNat(id);
    if tid.None? {
      return Response(500, Text("Internal Server Error"));
    }
    if tid.value !in db.tasks {
      return Response(404, Text("Task not found"));
    }
    var task := db.tasks[tid.value];
    if !SameOwner(task.userId, caller.userId) {
      return Response(403, Text("You are not authorized to delete this task"));
    }
    db.Remove(tid.value);
    return Response(200, Text("Task deleted"));
  }
}
