/** The two collections the service keeps (users and tasks), their
    record shapes and schema constraints, and the in-memory store that
    stands in for the document database. */
module Store {
  import opened Wrappers
  import opened Decimal
  import opened Crypto

  type UserId = nat
  type TaskId = nat
  type Username = string

  /** A stored user: the password is kept only as a digest. */
  datatype User = User(id: UserId, username: Username, password: Digest)

  /** A stored task: its text and the identifier of its owner. */
  datatype Task = Task(text: string, userId: UserId)

  /** The task schema: `text` is a required string, and the store refuses
      an empty string for a required field (the owner reference is always
      present in this model). */
  predicate TaskSchemaAccepts(t: Task) {
    t.text != ""
  }

  /** The ownership test: the string forms of the two identifiers are
      compared, which is the same as comparing the identifiers. */
  function SameOwner(a: UserId, b: UserId): (same: bool)
    ensures same <==> a == b
  {
    NatTextInjective(a, b);
    NatText(a) == NatText(b)
  }

  /** The owner-filtered task query: exactly the tasks whose owner is
      `owner`, unchanged. */
  function OwnedBy(tasks: map<TaskId, Task>, owner: UserId): (owned: map<TaskId, Task>)
    ensures forall id :: id in owned <==> id in tasks && tasks[id].userId == owner
    ensures forall id :: id in owned ==> owned[id] == tasks[id]
  {
    map id | id in tasks && tasks[id].userId == owner :: tasks[id]
  }

  /** The credentials `username`/`password` name a stored user whose
      digest matches the password. */
  predicate CredentialsMatch(users: map<Username, User>, username: Username, password: string) {
    username in users && Compare(password, users[username].password)
  }

  /** The document store: users keyed by their unique username, tasks by
      identifier, and the source of fresh identifiers. */
  class Db {
    var users: map<Username, User>
    var tasks: map<TaskId, Task>
    var nextId: nat

    /** Users are filed under their own name, identifiers are unique and
        already issued, and every stored task passes the schema. */
    ghost predicate Valid()
      reads this
    {
      && (forall u :: u in users ==> users[u].username == u && users[u].id < nextId)
      && (forall u, v :: u in users && v in users && users[u].id == users[v].id ==> u == v)
      && (forall id :: id in tasks ==> id < nextId && TaskSchemaAccepts(tasks[id]))
    }

    constructor ()
      ensures Valid()
      ensures users == map[] && tasks == map[] && nextId == 0
    {
      users, tasks, nextId := map[], map[], 0;
    }

    /** Saves a new user under a fresh identifier. */
    method InsertUser(username: Username, password: Digest) returns (id: UserId)
      requires Valid() && username !in users
      modifies this
      ensures Valid()
      ensures id == old(nextId) && nextId == old(nextId) + 1
      ensures users == old(users)[username := User(id, username, password)]
      ensures tasks == old(tasks)
    {
      id := nextId;
      users := users[username := User(id, username, password)];
      nextId := nextId + 1;
    }

    /** Saves a new task under a fresh identifier. */
    method InsertTask(task: Task) returns (id: TaskId)
      requires Valid() && TaskSchemaAccepts(task)
      modifies this
      ensures Valid()
      ensures id == old(nextId) && id !in old(tasks) && nextId == old(nextId) + 1
      ensures tasks == old(tasks)[id := task]
      ensures users == old(users)
    {
      id := nextId;
      tasks := tasks[id := task];
      nextId := nextId + 1;
    }

    /** Saves a task whose text was replaced. */
    method ReplaceText(id: TaskId, text: string)
      requires Valid() && id in tasks && text != ""
      modifies this
      ensures Valid()
      ensures tasks == old(tasks)[id := Task(text, old(tasks)[id].userId)]
      ensures users == old(users) && nextId == old(nextId)
    {
      tasks := tasks[id := Task(text, tasks[id].userId)];
    }

    /** Deletes the task with identifier `id`, if there is one. */
    method Remove(id: TaskId)
      requires Valid()
      modifies this
      ensures Valid()
      ensures tasks == old(tasks) - {id}
      ensures users == old(users) && nextId == old(nextId)
    {
      tasks := tasks - {id};
    }
  }
}
