/** The standalone entry point, server.js: its token gate, the register
    and login endpoints, the four task endpoints, and its route table.
    None of its handlers catches a store failure except the update
    handler. Elsewhere a failing store call rejects the handler's promise;
    assuming Express 4, which ignores it, the request gets no response
    (`Unanswered`) and the Node process may also exit. The parameter `outage` says that every store
    call made while handling the request fails. */
module ServerApp {
  import opened Wrappers
  import opened JsText
  import opened Decimal
  import opened Crypto
  import opened Store
  import opened Http

  /** The lifetime this entry point gives its tokens (`'1h'`), in seconds. */
  const TokenLifetime: nat := 3600

  /** The user schema: `username` is a required string, and the store
      refuses an empty one. (Uniqueness is the user table's keying.) */
  predicate UserSchemaAccepts(username: string) {
    username != ""
  }

  /** The token this gate reads: the header, when present, is cut at
      every single space (optional chaining: no header, no token) and the
      second field is taken, if there is one. It never contains a space. */
  function BearerToken(header: Option<string>): (token: Option<string>)
    ensures header.None? ==> token.None?
    ensures token.Some? ==> ' ' !in token.value
  {
    match header
    case None => None
    case Some(h) =>
      var fields := Split(h, ' ');
      if |fields| > 1 then Some(fields[1]) else None
  }

  /** The token gate: 401 without a (truthy) token, 403 when the token does
      not verify, and otherwise the decoded claims become `req.user` and
      `next()` is called. */
  method AuthenticateToken(req: Request, secret: string) returns (g: GateResult)
    modifies req`user
    ensures var token := BearerToken(req.authorization);
      && (!Truthy(token) ==>
            g == Halt(Response(401, Text("Access Denied"))) && req.user == old(req.user))
      && (Truthy(token) && Verify(secret, token.value).None? ==>
            g == Halt(Response(403, Text("Invalid token"))) && req.user == old(req.user))
      && (Truthy(token) && Verify(secret, token.value).Some? ==>
            g == Next && req.user == Verify(secret, token.value))
  {
    var token := BearerToken(req.authorization);
    if !Truthy(token) {
      return Halt(Response(401, Text("Access Denied")));
    }
    var decoded := Verify(secret, token.value);
    if decoded.None? {
      return Halt(Response(403, Text("Invalid token")));
    }
    req.user := decoded;
    return Next;
  }

  /** POST /register: a taken username is refused with 400 and nothing
      stored; otherwise exactly one user is added, holding the digest of
      the password, and 201 is sent. An empty username fails the schema
      when saved. */
  method Register(db: Db, username: string, password: string, outage: bool) returns (r: Response)
    requires db.Valid()
    modifies db
    ensures db.Valid()
    ensures outage ==> r == Unanswered && unchanged(db)
    ensures !outage && username in old(db.users) ==>
      r == Response(400, Text("Username already exists")) && unchanged(db)
    ensures !outage && username !in old(db.users) && !UserSchemaAccepts(username) ==>
      r == Unanswered && unchanged(db)
    ensures !outage && username !in old(db.users) && UserSchemaAccepts(username) ==>
      && r == Response(201, Text("User registered successfully"))
      && db.users == old(db.users)[username := User(old(db.nextId), username, Hash(password, CostFactor))]
      && db.tasks == old(db.tasks)
  {
    if outage {
      return Unanswered;
    }
    if username in db.users {
      return Response(400, Text("Username already exists"));
    }
    var hashed := Hash(password, CostFactor);
    if !UserSchemaAccepts(username) {
      return Unanswered;
    }
    var _ := db.InsertUser(username, hashed);
    return Response(201, Text("User registered successfully"));
  }

  /** POST /login: an unknown username and a wrong password get the very
      same 400; good credentials get 200 with the username and a token
      that verifies to the stored user's identifier and carries the
      one-hour lifetime. Signing with an empty secret throws. */
  method Login(db: Db, username: string, password: string, secret: string, outage: bool)
    returns (r: Response)
    requires db.Valid()
    ensures outage ==> r == Unanswered
    ensures !outage && !CredentialsMatch(db.users, username, password) ==>
      r == Response(400, Text("Invalid username or password"))
    ensures !outage && CredentialsMatch(db.users, username, password) && secret == "" ==>
      r == Unanswered
    ensures !outage && CredentialsMatch(db.users, username, password) && secret != "" ==>
      && r.Response? && r.status == 200
      && r.body.TokenAndUsername? && r.body.username == username
      && Verify(secret, r.body.token) == Some(Claims(db.users[username].id, Some(TokenLifetime)))
  {
    if outage {
      return Unanswered;
    }
    if username !in db.users {
      return Response(400, Text("Invalid username or password"));
    }
    var user := db.users[username];
    var validPassword := Compare(password, user.password);
    if !validPassword {
      return Response(400, Text("Invalid username or password"));
    }
    var token := Sign(secret, Claims(user.id, Some(TokenLifetime)));
    if token.None? {
      return Unanswered;
    }
    return Response(200, TokenAndUsername(token.value, user.username));
  }

  /** POST /tasks: a missing or empty text is refused with 400 and nothing
      stored; any other text (blank ones included) becomes exactly one new
      task owned by the caller, and 201 is sent. */
  method CreateTask(db: Db, caller: Claims, text: Option<string>, outage: bool) returns (r: Response)
    requires db.Valid()
    modifies db
    ensures db.Valid()
    ensures !Truthy(text) ==> r == Response(400, Text("Please provide a task")) && unchanged(db)
    ensures Truthy(text) && outage ==> r == Unanswered && unchanged(db)
    ensures Truthy(text) && !outage ==>
      && r == Response(201, Text("Task added"))
      && old(db.nextId) !in old(db.tasks)
      && db.tasks == old(db.tasks)[old(db.nextId) := Task(text.value, caller.userId)]
      && db.users == old(db.users)
  {
    if !Truthy(text) {
      return Response(400, Text("Please provide a task"));
    }
    if outage {
      return Unanswered;
    }
    var _ := db.InsertTask(Task(text.value, caller.userId));
    return Response(201, Text("Task added"));
  }

  /** GET /tasks: exactly the caller's tasks. */
  method ListTasks(db: Db, caller: Claims, outage: bool) returns (r: Response)
    ensures outage ==> r == Unanswered
    ensures !outage ==> r.Response? && r.status == 200 && r.body.TaskList?
    ensures !outage ==> forall id :: id in r.body.tasks <==> id in db.tasks && db.tasks[id].userId == caller.userId
    ensures !outage ==> forall id :: id in r.body.tasks ==> r.body.tasks[id] == db.tasks[id]
  {
    if outage {
      return Unanswered;
    }
    var tasks := OwnedBy(db.tasks, caller.userId);
    return Response(200, TaskList(tasks));
  }

  /** PUT /tasks/:id: an absent, empty or all-whitespace text is refused
      with 400 before any lookup; then a store failure or an id that is not
      an identifier gives 500, an unknown id 404 and someone else's task
      403, each with nothing changed; otherwise only that task's text is
      replaced (as sent, untrimmed) and 200 returns the task. */
  method UpdateTask(db: Db, caller: Claims, id: string, text: Option<string>, outage: bool)
    returns (r: Response)
    requires db.Valid()
    modifies db
    ensures db.Valid()
    ensures !Truthy(text) || IsBlank(text.value) ==>
      r == Response(400, Text("Task text cannot be empty")) && unchanged(db)
    ensures Truthy(text) && !IsBlank(text.value) && (outage || ParseNat(id).None?) ==>
      r == Response(500, Text("Internal server error")) && unchanged(db)
    ensures Truthy(text) && !IsBlank(text.value) && !outage && ParseNat(id).Some? ==>
      var tid := ParseNat(id).value;
      if tid !in old(db.tasks) then
        r == Response(404, Text("Task not found")) && unchanged(db)
      else if old(db.tasks)[tid].userId != caller.userId then
        r == Response(403, Text("You are not authorized to update this task")) && unchanged(db)
      else
        && db.tasks == old(db.tasks)[tid := Task(text.value, caller.userId)]
        && db.users == old(db.users) && db.nextId == old(db.nextId)
        && r == Response(200, TaskUpdated("Task updated successfully", tid, db.tasks[tid]))
  {
    if !Truthy(text) || Trim(text.value) == "" {
      return Response(400, Text("Task text cannot be empty"));
    }
    if outage {
      return Response(500, Text("Internal server error"));
    }
    var tid := ParseNat(id);
    if tid.None? {
      return Response(500, Text("Internal server error"));
    }
    if tid.value !in db.tasks {
      return Response(404, Text("Task not found"));
    }
    var task := db.tasks[tid.value];
    if !SameOwner(task.userId, caller.userId) {
      return Response(403, Text("You are not authorized to update this task"));
    }
    db.ReplaceText(tid.value, text.value);
    return Response(200, TaskUpdated("Task updated successfully", tid.value, db.tasks[tid.value]));
  }

  /** DELETE /tasks/:id: an unknown id gives 404 and someone else's task
      403, each with nothing changed; otherwise exactly that task is
      removed and 200 is sent. */
  method DeleteTask(db: Db, caller: Claims, id: string, outage: bool) returns (r: Response)
    requires db.Valid()
    modifies db
    ensures db.Valid()
    ensures outage || ParseNat(id).None? ==> r == Unanswered && unchanged(db)
    ensures !outage && ParseNat(id).Some? ==>
      var tid := ParseNat(id).value;
      if tid !in old(db.tasks) then
        r == Response(404, Text("Task not found")) && unchanged(db)
      else if old(db.tasks)[tid].userId != caller.userId then
        r == Response(403, Text("You are not authorized to delete this task")) && unchanged(db)
      else
        && db.tasks == old(db.tasks) - {tid}
        && db.users == old(db.users) && db.nextId == old(db.nextId)
        && r == Response(200, Text("Task deleted"))
  {
    if outage {
      return Unanswered;
    }
    var tid := ParseNat(id);
    if tid.None? {
      return Unanswered;
    }
    if tid.value !in db.tasks {
      return Response(404, Text("Task not found"));
    }
    var task := db.tasks[tid.value];
    if !SameOwner(task.userId, caller.userId) {
      return Response(403, Text("You are not authorized to delete this task"));
    }
    db.Remove(tid.value);
    return Response(200, Text("Task deleted"));
  }

  /** The routes server.js binds, with what each reads from the request. */
  datatype Endpoint =
    | PostRegister(username: string, password: string)
    | PostLogin(username: string, password: string)
    | PostTasks(text: Option<string>)
    | GetTasks
    | PutTasksId(id: string, text: Option<string>)
    | DeleteTasksId(id: string)

  /** Every task route sits behind the token gate; register and login do not. */
  predicate Protected(e: Endpoint) {
    !e.PostRegister? && !e.PostLogin?
  }

  /** The route table: a protected route runs the gate first, and a request
      the gate stops reaches no handler and changes nothing; an admitted
      request runs its handler once, for the caller the token names. */
  method Handle(db: Db, req: Request, e: Endpoint, secret: string, outage: bool) returns (r: Response)
    requires db.Valid()
    modifies db, req`user
    ensures db.Valid()
    ensures e == GetTasks ==> unchanged(db)
    ensures var token := BearerToken(req.authorization);
      && (Protected(e) && !Truthy(token) ==>
            r == Response(401, Text("Access Denied")) && unchanged(db))
      && (Protected(e) && Truthy(token) && Verify(secret, token.value).None? ==>
            r == Response(403, Text("Invalid token")) && unchanged(db))
      && (e == GetTasks && Truthy(token) && Verify(secret, token.value).Some? && !outage ==>
            r == Response(200, TaskList(OwnedBy(db.tasks, Verify(secret, token.value).value.userId))))
  {
    if Protected(e) {
      var g := AuthenticateToken(req, secret);
      if g.Halt? {
        return g.response;
      }
    }
    match e
    case PostRegister(username, password) =>
      r := Register(db, username, password, outage);
    case PostLogin(username, password) =>
      r := Login(db, username, password, secret, outage);
    case PostTasks(text) =>
      r := CreateTask(db, req.user.value, text, outage);
    case GetTasks =>
      r := ListTasks(db, req.user.value, outage);
    case PutTasksId(id, text) =>
      r := UpdateTask(db, req.user.value, id, text, outage);
    case DeleteTasksId(id) =>
      r := DeleteTask(db, req.user.value, id, outage);
  }
}
