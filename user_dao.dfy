/** The user table's data-access object. Passwords are stored as bcrypt
    hashes; the salt `gensalt()` draws is a parameter of every write. */
module UserDao {
  import opened Common
  import opened Json
  import opened Http
  import opened Sql
  import opened Store

  /** No two users share a username. */
  predicate UniqueUsernames(users: map<int, UserRow>) {
    forall a, b :: a in users && b in users && a != b ==> users[a].username != users[b].username
  }

  function NameIds(users: map<int, UserRow>, name: string): set<int> {
    set uid | uid in users && users[uid].username == name
  }

  lemma NameWitness(users: map<int, UserRow>, name: string)
    requires exists uid :: uid in users && users[uid].username == name
    ensures exists k :: k in NameIds(users, name)
  {
    var w :| w in users && users[w].username == name;
    var k: int := w;
    assert k in NameIds(users, name);
  }

  /** The users named `name`: one of them (the least uid), or none. */
  function UserNamed(users: map<int, UserRow>, name: string): (r: Option<int>)
    ensures r.Some? ==> r.value in users && users[r.value].username == name
    ensures r.None? <==> forall uid :: uid in users ==> users[uid].username != name
  {
    if exists uid :: uid in users && users[uid].username == name then
      NameWitness(users, name);
      Some(Least(NameIds(users, name)))
    else
      None
  }

  /** `getUserByUsername(username)` with the value the caller has: text is
      compared with the column, NULL matches nothing, and any other value
      makes PostgreSQL reject the comparison. */
  function UserByUsername(users: map<int, UserRow>, username: Json): (r: Fetch<int>)
    ensures r.DbError? <==> TextParam(username).Invalid?
    ensures r.Row? <==> username.JStr? && UserNamed(users, username.s).Some?
    ensures r.Row? ==> r.v in users && users[r.v].username == username.s
  {
    match TextParam(username)
    case Invalid => DbError
    case Null => NoRow
    case Value(name) =>
      match UserNamed(users, name)
      case Some(uid) => Row(uid)
      case None => NoRow
  }

  /** What `verifyUser` hands back: None, a uid or -1, or the exception it
      raised. */
  datatype Verdict = Verdict(result: Option<int>) | Raised(exception: string)

  /** `verifyUser(username, password)`: None for an unknown user; otherwise
      the uid when the password checks against the stored hash, else -1.
      A password that is not text fails at `.encode`. */
  function VerifyUser(users: map<int, UserRow>, username: Json, password: Json): (r: Verdict)
    ensures UserByUsername(users, username).DbError? ==> r == Raised(DbException)
    ensures UserByUsername(users, username).NoRow? ==> r == Verdict(None)
    ensures UserByUsername(users, username).Row? && !password.JStr? ==> r == Raised(AttributeException)
    ensures UserByUsername(users, username).Row? && password.JStr? ==>
      var uid := UserByUsername(users, username).v;
      r == Verdict(Some(if Checkpw(password.s, users[uid].password) then uid else -1))
    ensures r.Verdict? && r.result.Some? && r.result.value != -1 ==>
      && r.result.value in users && password.JStr? && Checkpw(password.s, users[r.result.value].password)
      && users[r.result.value].username == username.s
  {
    match UserByUsername(users, username)
    case DbError => Raised(DbException)
    case NoRow => Verdict(None)
    case Row(uid) =>
      if !password.JStr? then Raised(AttributeException)
      else if Checkpw(password.s, users[uid].password) then Verdict(Some(uid))
      else Verdict(Some(-1))
  }

  /** With usernames unique, a user logs in exactly with the password their
      hash was made from. */
  lemma {:induction false} VerifyUserOfStored(users: map<int, UserRow>, uid: int, password: string)
    requires uid in users && uid != -1
    requires UniqueUsernames(users)
    ensures VerifyUser(users, JStr(users[uid].username), JStr(password)) ==
      Verdict(Some(if Checkpw(password, users[uid].password) then uid else -1))
  {
    var name := users[uid].username;
    var found := UserNamed(users, name);
    assert found == Some(uid);
  }

  /** `insertUser`: one new row under the next serial id, holding the hash
      of the password. */
  method InsertUser(db: Database, username: string, password: string, salt: string) returns (uid: int)
    requires db.Valid()
    modifies db
    ensures uid == old(db.nextUid) && uid !in old(db.users)
    ensures db.Snapshot() == old(db.Snapshot()).(users := old(db.users)[uid := UserRow(username, Hashpw(password, salt))],
                                                nextUid := uid + 1)
    ensures db.Valid()
  {
    uid := db.nextUid;
    db.users := db.users[uid := UserRow(username, Hashpw(password, salt))];
    db.nextUid := db.nextUid + 1;
  }

  /** `updateUser`: a new name and a freshly salted hash for row `uid`, if
      there is one; `uid` is returned either way. */
  method UpdateUser(db: Database, uid: int, username: string, password: string, salt: string) returns (r: int)
    requires db.Valid()
    modifies db
    ensures r == uid
    ensures db.Snapshot() == old(db.Snapshot()).(users :=
      if uid in old(db.users) then old(db.users)[uid := UserRow(username, Hashpw(password, salt))] else old(db.users))
    ensures db.Valid()
  {
    if uid in db.users {
      db.users := db.users[uid := UserRow(username, Hashpw(password, salt))];
    }
    r := uid;
  }

  /** `deleteUser`: -1 for an absent user, otherwise the row is removed and
      its id returned. */
  method DeleteUser(db: Database, uid: int) returns (r: int)
    requires db.Valid()
    modifies db
    ensures uid !in old(db.users) ==> r == -1 && db.Snapshot() == old(db.Snapshot())
    ensures uid in old(db.users) ==> r == uid && db.Snapshot() == old(db.Snapshot()).(users := old(db.users) - {uid})
    ensures db.Valid()
  {
    if uid !in db.users {
      return -1;
    }
    db.users := db.users - {uid};
    r := uid;
  }
}
