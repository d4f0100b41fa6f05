/** Properties that span several requests or both entry points: the
    scenarios a client of the service relies on, proved from the
    handlers' contracts for every store state and every input. */
module EndToEnd {
  import opened Wrappers
  import opened JsText
  import opened Decimal
  import opened Crypto
  import opened Store
  import opened Http
  import opened Config
  import ServerApp
  import TaskRoutes
  import TaskController
  import AuthController

  /** The two gates extract the token differently (`?.` against `&&`), but
      they agree on whether there is a usable token and on what it is. */
  lemma ExtractionAgrees(header: Option<string>)
    ensures Truthy(TaskRoutes.BearerToken(header)) <==> Truthy(ServerApp.BearerToken(header))
    ensures Truthy(TaskRoutes.BearerToken(header)) ==>
      TaskRoutes.BearerToken(header) == ServerApp.BearerToken(header)
  {
    if header == Some("") {
      assert Split("", ' ') == [""];
    }
  }

  /** A token sent as `Bearer <token>` reaches both gates intact. */
  lemma BearerHeaderCarriesToken(token: string)
    requires token != "" && ' ' !in token
    ensures TaskRoutes.BearerToken(Some("Bearer " + token)) == Some(token)
    ensures ServerApp.BearerToken(Some("Bearer " + token)) == Some(token)
  {
    assert "Bearer " + token == "Bearer" + " " + token + "";
    TaskRoutes.TokenAfterScheme("Bearer", token, "");
    ExtractionAgrees(Some("Bearer " + token));
  }

  /** Registering one username twice stores exactly one user, with the
      first password, and the second attempt is refused. */
  method RegisterTwice(db: Db, username: string, first: string, second: string)
    returns (r1: Response, r2: Response)
    requires db.Valid() && username !in db.users && username != ""
    modifies db
    ensures db.Valid()
    ensures r1 == Response(201, Text("User registered successfully"))
    ensures r2 == Response(400, Text("Username already exists"))
    ensures db.users == old(db.users)[username := User(old(db.nextId), username, Hash(first, CostFactor))]
    ensures db.tasks == old(db.tasks)
  {
    r1 := ServerApp.Register(db, username, first, false);
    r2 := ServerApp.Register(db, username, second, false);
  }

  /** Register, log in, and list with the token received: each step
      succeeds, the token names the new user, and the list holds exactly
      that user's tasks. */
  method RegisterLoginList(db: Db, username: string, password: string, secret: string)
    returns (registered: Response, loggedIn: Response, listed: Response)
    requires db.Valid() && username !in db.users && username != "" && secret != ""
    modifies db
    ensures db.Valid()
    ensures registered.Response? && registered.status == 201
    ensures loggedIn.Response? && loggedIn.status == 200 && loggedIn.body.TokenAndUsername?
    ensures username in db.users && db.users[username].id == old(db.nextId)
    ensures Verify(secret, loggedIn.body.token) == Some(Claims(old(db.nextId), Some(ServerApp.TokenLifetime)))
    ensures listed == Response(200, TaskList(OwnedBy(db.tasks, old(db.nextId))))
  {
    registered := ServerApp.Register(db, username, password, false);
    loggedIn := ServerApp.Login(db, username, password, secret, false);
    var token := loggedIn.body.token;
    assert Verify(secret, token).Some?;
    SignedTokensHaveNoSpace(secret, token);
    BearerHeaderCarriesToken(token);
    var req := new Request(Some("Bearer " + token));
    listed := ServerApp.Handle(db, req, ServerApp.GetTasks, secret, false);
  }

  /** A token that verifies has the shape of a signed token: non-empty and
      without spaces. */
  lemma SignedTokensHaveNoSpace(secret: string, token: string)
    requires Verify(secret, token).Some?
    ensures token != "" && ' ' !in token
  {
    var fields := Split(token, '.');
    forall i | 0 <= i < 3 ensures ' ' !in fields[i] {
      if i == 2 {
        KeyTagAvoids(secret, ' ');
      }
    }
    JoinAvoids(fields, '.', ' ');
  }

  /** Creating a task and then listing: the new task is listed, with its
      text and the caller as owner, next to the caller's earlier tasks. */
  method CreateThenList(db: Db, caller: Claims, text: string) returns (created: Response, listed: Response)
    requires db.Valid() && text != ""
    modifies db
    ensures db.Valid()
    ensures created == Response(201, Text("Task added"))
    ensures listed.Response? && listed.body.TaskList?
    ensures listed.body.tasks == OwnedBy(old(db.tasks), caller.userId)[old(db.nextId) := Task(text, caller.userId)]
  {
    created := ServerApp.CreateTask(db, caller, Some(text), false);
    listed := ServerApp.ListTasks(db, caller, false);
  }

  /** Deleting a task twice: once it is gone, the second delete finds
      nothing and changes nothing. */
  method DeleteTwice(db: Db, caller: Claims, id: string) returns (r1: Response, r2: Response)
    requires db.Valid()
    modifies db
    ensures db.Valid()
    ensures r1 == Response(200, Text("Task deleted")) ==>
      && ParseNat(id).Some?
      && r2 == Response(404, Text("Task not found"))
      && db.tasks == old(db.tasks) - {ParseNat(id).value}
  {
    r1 := TaskController.DeleteTask(db, caller, id, false);
    ghost var between := db.tasks;
    r2 := TaskController.DeleteTask(db, caller, id, false);
    assert r1 == Response(200, Text("Task deleted")) ==> db.tasks == between;
  }

  /** A caller holding user A's claims can neither update nor delete a
      task of another registered user B: both get 403 and nothing
      changes. */
  method OtherUsersTaskForbidden(db: Db, a: Username, b: Username, id: TaskId, text: string)
    returns (updated: Response, deleted: Response)
    requires db.Valid() && a in db.users && b in db.users && a != b
    requires id in db.tasks && db.tasks[id].userId == db.users[b].id
    requires text != "" && !IsBlank(text)
    modifies db
    ensures updated == Response(403, Text("You are not authorized to update this task"))
    ensures deleted == Response(403, Text("You are not authorized to delete this task"))
    ensures unchanged(db)
  {
    var caller := Claims(db.users[a].id, Some(ServerApp.TokenLifetime));
    ParseNatText(id);
    updated := ServerApp.UpdateTask(db, caller, NatText(id), Some(text), false);
    deleted := ServerApp.DeleteTask(db, caller, NatText(id), false);
  }

  /** The router-and-controller entry point end to end, as written: with
      SECRET_KEY set, register, log in, then list through the router with
      the token received; each step succeeds and the list holds exactly
      the new user's tasks. */
  method ControllerRegisterLoginList(db: Db, username: string, password: string, secretKey: Option<string>)
    returns (registered: Response, loggedIn: Response, listed: Response)
    requires db.Valid() && username !in db.users && Truthy(secretKey)
    modifies db
    ensures db.Valid()
    ensures registered == Response(201, Text("User registered successfully"))
    ensures loggedIn.Response? && loggedIn.status == 200 && loggedIn.body.TokenJson?
    ensures listed == Response(200, TaskList(OwnedBy(db.tasks, old(db.nextId))))
  {
    registered := AuthController.RegisterUser(db, username, password, false);
    loggedIn := AuthController.LoginUser(db, username, password, secretKey, false);
    var token := loggedIn.body.token;
    SignedTokensHaveNoSpace(AuthControllerSecret(secretKey), token);
    BearerHeaderCarriesToken(token);
    ConfiguredSecretsAgree(secretKey);
    var req := new Request(Some("Bearer " + token));
    listed := TaskRoutes.Handle(db, req, TaskRoutes.GetRoot, secretKey, false);
  }

  /** The same scenario as written with SECRET_KEY unset: login succeeds,
      but the router's gate refuses the token it issued, for every route. */
  method ControllerUnsetSecretForbidden(db: Db, username: string, password: string, route: TaskRoutes.Route)
    returns (registered: Response, loggedIn: Response, answered: Response)
    requires db.Valid() && username !in db.users
    modifies db
    ensures db.Valid()
    ensures registered == Response(201, Text("User registered successfully"))
    ensures loggedIn.Response? && loggedIn.status == 200 && loggedIn.body.TokenJson?
    ensures answered == Response(403, Text("Invalid Token"))
    ensures db.tasks == old(db.tasks)
  {
    registered := AuthController.RegisterUser(db, username, password, false);
    ghost var tasks := db.tasks;
    loggedIn := AuthController.LoginUser(db, username, password, None, false);
    var token := loggedIn.body.token;
    SignedTokensHaveNoSpace(AuthControllerSecret(None), token);
    BearerHeaderCarriesToken(token);
    assert AuthControllerFallback[0] != TaskRoutesFallback[0];
    VerifiesUnderOneSecret(AuthControllerSecret(None), TaskRoutesSecret(None), token);
    var req := new Request(Some("Bearer " + token));
    answered := TaskRoutes.Handle(db, req, route, None, false);
  }

  /** The scenario with the corrected router: whatever SECRET_KEY says, the
      token login issues passes the gate and the list holds exactly the
      new user's tasks. */
  method ControllerRegisterLoginListCorrected(db: Db, username: string, password: string, secretKey: Option<string>)
    returns (registered: Response, loggedIn: Response, listed: Response)
    requires db.Valid() && username !in db.users
    modifies db
    ensures db.Valid()
    ensures registered == Response(201, Text("User registered successfully"))
    ensures loggedIn.Response? && loggedIn.status == 200 && loggedIn.body.TokenJson?
    ensures listed == Response(200, TaskList(OwnedBy(db.tasks, old(db.nextId))))
  {
    registered := AuthController.RegisterUser(db, username, password, false);
    loggedIn := AuthController.LoginUser(db, username, password, secretKey, false);
    var token := loggedIn.body.token;
    SignedTokensHaveNoSpace(AuthControllerSecret(secretKey), token);
    BearerHeaderCarriesToken(token);
    var req := new Request(Some("Bearer " + token));
    listed := TaskRoutes.HandleCorrected(db, req, TaskRoutes.GetRoot, secretKey, false);
  }
}
