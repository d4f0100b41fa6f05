/** controllers/authController.js: registration and login behind the
    router. Both run inside `try`, so a failing store call gives 500. The
    user model this file loads is not part of the model, so no schema
    check is applied to the user it saves. */
module AuthController {
  import opened Wrappers
  import opened Store
  import opened Crypto
  import opened Http
  import opened Config

  /** registerUser: a taken username gives 400 and adds no user; otherwise
      exactly one user is added, holding the digest of the password, and
      201 is sent. */
  method RegisterUser(db: Db, username: string, password: string, outage: bool) returns (r: Response)
    requires db.Valid()
    modifies db
    ensures db.Valid()
    ensures outage ==> r == Response(500, Text("Internal Server Error")) && unchanged(db)
    ensures !outage && username in old(db.users) ==>
      r == Response(400, Text("Username already exists")) && unchanged(db)
    ensures !outage && username !in old(db.users) ==>
      && r == Response(201, Text("User registered successfully"))
      && db.users == old(db.users)[username := User(old(db.nextId), username, Hash(password, CostFactor))]
      && db.tasks == old(db.tasks)
  {
    if outage {
      return Response(500, Text("Internal Server Error"));
    }
    if username in db.users {
      return Response(400, Text("Username already exists"));
    }
    var hashedPassword := Hash(password, CostFactor);
    var _ := db.InsertUser(username, hashedPassword);
    return Response(201, Text("User registered successfully"));
  }

  /** loginUser: an unknown username and a wrong password get the very
      same 401; good credentials get 200 with a token that verifies, under
      `SECRET_KEY || 'yourSecretKey'` (`secretKey` is SECRET_KEY), to the
      stored user's identifier, with no lifetime set. */
  method LoginUser(db: Db, username: string, password: string, secretKey: Option<string>, outage: bool)
    returns (r: Response)
    ensures outage ==> r == Response(500, Text("Internal Server Error"))
    ensures !outage && !CredentialsMatch(db.users, username, password) ==>
      r == Response(401, Text("Invalid credentials"))
    ensures !outage && CredentialsMatch(db.users, username, password) ==>
      && r.Response? && r.status == 200 && r.body.TokenJson?
      && Verify(AuthControllerSecret(secretKey), r.body.token) == Some(Claims(db.users[username].id, None))
  {
    if outage {
      return Response(500, Text("Internal Server Error"));
    }
    if username !in db.users || !Compare(password, db.users[username].password) {
      return Response(401, Text("Invalid credentials"));
    }
    var user := db.users[username];
    var token := Sign(AuthControllerSecret(secretKey), Claims(user.id, None)).value;
    return Response(200, TokenJson(token));
  }
}
