/** What a handler sends back and the request object the token gate
    writes to. */
module Http {
  import opened Wrappers
  import opened Crypto
  import opened Store

  /** Response bodies: `res.send(text)` is `Text`; the JSON bodies are
      named after their shape. */
  datatype Body =
    | Text(text: string)
    | Message(message: string)
    | TaskJson(id: TaskId, task: Task)
    | TaskUpdated(message: string, id: TaskId, task: Task)
    | TaskList(tasks: map<TaskId, Task>)
    | TokenJson(token: string)
    | TokenAndUsername(token: string, username: string)

  /** A response with a status code, or none at all: under Express 4 an
      `async` handler whose promise rejects outside any `try` sends
      nothing. */
  datatype Response = Response(status: nat, body: Body) | Unanswered

  /** An incoming request: its `Authorization` header and the `user` slot
      the token gate fills in. */
  class Request {
    const authorization: Option<string>
    var user: Option<Claims>

    constructor (authorization: Option<string>)
      ensures this.authorization == authorization && user == None
    {
      this.authorization := authorization;
      user := None;
    }
  }

  /** What the token gate does with a request: call `next()` once, or
      answer it and stop. */
  datatype GateResult = Next | Halt(response: Response)
}
