/** routes/taskRoutes.js: the router's own token gate and its three
    bindings, each of which puts the gate in front of its handler. */
module TaskRoutes {
  import opened Wrappers
  import opened JsText
  import opened Crypto
  import opened Decimal
  import opened Store
  import opened Http
  import opened Config
  import TaskController

  /** The token this gate reads, guarded with `&&` rather than optional
      chaining: an absent header stays absent, an empty header is kept as
      the (falsy) empty string, and otherwise the header is cut at every
      single space and the second field taken, if there is one. The scheme
      word is not looked at. */
  function BearerToken(header: Option<string>): (token: Option<string>)
    ensures header.None? ==> token.None?
    ensures token.Some? ==> ' ' !in token.value
  {
    match header
    case None => None
    case Some(h) =>
      if h == "" then Some(h)
      else
        var fields := Split(h, ' ');
        if |fields| > 1 then Some(fields[1]) else None
  }

  /** A header `<scheme> <token>`, possibly followed by more space-separated
      fields, yields exactly `<token>`, whatever the scheme says. */
  lemma {:induction false} TokenAfterScheme(scheme: string, token: string, tail: string)
    requires ' ' !in scheme && ' ' !in token
    requires tail == "" || tail[0] == ' '
    ensures BearerToken(Some(scheme + " " + token + tail)) == Some(token)
  {
    var h := scheme + " " + token + tail;
    assert h == scheme + [' '] + (token + tail);
    SplitAfterField(scheme, token + tail, ' ');
    if tail == "" {
      assert token + tail == token;
      SplitFieldEnd(token, ' ');
    } else {
      assert token + tail == token + [' '] + tail[1..];
      SplitAfterField(token, tail[1..], ' ');
    }
  }

  /** Examples from the gate's behaviour: the scheme is ignored, and a
      header without a second field yields no token. */
  lemma HeaderExamples()
    ensures BearerToken(Some("Basic abc")) == Some("abc")
    ensures !Truthy(BearerToken(Some("Bearer")))
  {
    assert "Basic abc" == "Basic" + " " + "abc" + "";
    TokenAfterScheme("Basic", "abc", "");
    SplitFieldEnd("Bearer", ' ');
  }

  /** More examples: an empty header, and a header whose second field is
      empty, yield the empty, falsy token. */
  lemma EmptyTokenExamples()
    ensures !Truthy(BearerToken(Some("Bearer ")))
    ensures !Truthy(BearerToken(Some("Bearer  x")))
    ensures !Truthy(BearerToken(Some("")))
  {
    assert "Bearer " == "Bearer" + " " + "" + "";
    TokenAfterScheme("Bearer", "", "");
    assert "Bearer  x" == "Bearer" + " " + "" + " x";
    TokenAfterScheme("Bearer", "", " x");
  }

  /** The token gate: 401 without a (truthy) token, 403 "Invalid Token"
      when `jwt.verify` throws, and otherwise the decoded claims become
      `req.user` and `next()` is called. */
  method AuthenticateToken(req: Request, secret: string) returns (g: GateResult)
    modifies req`user
    ensures var token := BearerToken(req.authorization);
      && (!Truthy(token) ==>
            g == Halt(Response(401, Text("Access Denied"))) && req.user == old(req.user))
      && (Truthy(token) && Verify(secret, token.value).None? ==>
            g == Halt(Response(403, Text("Invalid Token"))) && req.user == old(req.user))
      && (Truthy(token) && Verify(secret, token.value).Some? ==>
            g == Next && req.user == Verify(secret, token.value))
  {
    var token := BearerToken(req.authorization);
    if !Truthy(token) {
      return Halt(Response(401, Text("Access Denied")));
    }
    var decoded := Verify(secret, token.value);
    if decoded.None? {
      return Halt(Response(403, Text("Invalid Token")));
    }
    req.user := decoded;
    return Next;
  }

  /** The three bindings, with what each handler reads from the request. */
  datatype Route =
    | GetRoot
    | PostRoot(text: Option<string>)
    | DeleteId(id: string)

  /** routes/taskRoutes.js as written: the gate verifies with
      `SECRET_KEY || '123456'`. */
  method Handle(db: Db, req: Request, route: Route, secretKey: Option<string>, outage: bool)
    returns (r: Response)
    requires db.Valid()
    modifies db, req`user
    ensures db.Valid()
    ensures route == GetRoot ==> unchanged(db)
    ensures var token := BearerToken(req.authorization);
      var secret := TaskRoutesSecret(secretKey);
      && (!Truthy(token) ==>
            r == Response(401, Text("Access Denied")) && unchanged(db))
      && (Truthy(token) && Verify(secret, token.value).None? ==>
            r == Response(403, Text("Invalid Token")) && unchanged(db))
      && (route == GetRoot && Truthy(token) && Verify(secret, token.value).Some? && !outage ==>
            r == Response(200, TaskList(OwnedBy(db.tasks, Verify(secret, token.value).value.userId))))
  {
    r := Serve(db, req, route, TaskRoutesSecret(secretKey), outage);
  }

  /** The router with the corrected configuration: the gate verifies with
      the secret login signs with. */
  method HandleCorrected(db: Db, req: Request, route: Route, secretKey: Option<string>, outage: bool)
    returns (r: Response)
    requires db.Valid()
    modifies db, req`user
    ensures db.Valid()
    ensures route == GetRoot ==> unchanged(db)
    ensures var token := BearerToken(req.authorization);
      var secret := SharedSecret(secretKey);
      && (!Truthy(token) ==>
            r == Response(401, Text("Access Denied")) && unchanged(db))
      && (Truthy(token) && Verify(secret, token.value).None? ==>
            r == Response(403, Text("Invalid Token")) && unchanged(db))
      && (route == GetRoot && Truthy(token) && Verify(secret, token.value).Some? && !outage ==>
            r == Response(200, TaskList(OwnedBy(db.tasks, Verify(secret, token.value).value.userId))))
  {
    r := Serve(db, req, route, SharedSecret(secretKey), outage);
  }

  /** Every binding runs the gate, verifying with `secret`, first: a
      request it stops reaches no handler and changes nothing; an admitted
      request runs its handler once, for the caller the token names. */
  method Serve(db: Db, req: Request, route: Route, secret: string, outage: bool)
    returns (r: Response)
    requires db.Valid()
    modifies db, req`user
    ensures db.Valid()
    ensures route == GetRoot ==> unchanged(db)
    ensures var token := BearerToken(req.authorization);
      && (!Truthy(token) ==>
            r == Response(401, Text("Access Denied")) && unchanged(db))
      && (Truthy(token) && Verify(secret, token.value).None? ==>
            r == Response(403, Text("Invalid Token")) && unchanged(db))
      && (route == GetRoot && Truthy(token) && Verify(secret, token.value).Some? && !outage ==>
            r == Response(200, TaskList(OwnedBy(db.tasks, Verify(secret, token.value).value.userId))))
  {
    ghost var token := BearerToken(req.authorization);
    var g := AuthenticateToken(req, secret);
    if g.Halt? {
      return g.response;
    }
    assert Truthy(token) && req.user == Verify(secret, token.value);
    r := Dispatch(db, route, req.user.value, outage);
  }

  /** The handler each binding names, run for an admitted caller: GET `/`
      lists the caller's tasks, POST `/` adds a task owned by the caller,
      DELETE `/:id` removes the caller's own task. */
  method Dispatch(db: Db, route: Route, caller: Claims, outage: bool) returns (r: Response)
    requires db.Valid()
    modifies db
    ensures db.Valid()
    ensures route == GetRoot ==> unchanged(db)
    ensures route == GetRoot && outage ==> r == Response(500, Text("Internal Server Error"))
    ensures route == GetRoot && !outage ==> r == Response(200, TaskList(OwnedBy(db.tasks, caller.userId)))
    ensures route.PostRoot? && !Truthy(route.text) ==>
      r == Response(400, Message("Task text is required")) && unchanged(db)
    ensures route.PostRoot? && Truthy(route.text) && outage ==>
      r == Response(500, Message("Internal server error")) && unchanged(db)
    ensures route.PostRoot? && Truthy(route.text) && !outage ==>
      && db.tasks == old(db.tasks)[old(db.nextId) := Task(route.text.value, caller.userId)]
      && db.users == old(db.users)
      && r == Response(201, TaskJson(old(db.nextId), Task(route.text.value, caller.userId)))
    ensures route.DeleteId? && (outage || ParseNat(route.id).None?) ==>
      r == Response(500, Text("Internal Server Error")) && unchanged(db)
    ensures route.DeleteId? && !outage && ParseNat(route.id).Some? ==>
      var tid := ParseNat(route.id).value;
      if tid !in old(db.tasks) then
        r == Response(404, Text("Task not found")) && unchanged(db)
      else if old(db.tasks)[tid].userId != caller.userId then
        r == Response(403, Text("You are not authorized to delete this task")) && unchanged(db)
      else
        && db.tasks == old(db.tasks) - {tid}
        && db.users == old(db.users) && db.nextId == old(db.nextId)
        && r == Response(200, Text("Task deleted"))
  {
    match route
    case GetRoot =>
      r := TaskController.GetTasks(db, caller, outage);
    case PostRoot(text) =>
      r := TaskController.AddTask(db, caller, text, outage);
    case DeleteId(id) =>
      r := TaskController.DeleteTask(db, caller, id, outage);
  }
}
