/** The user endpoints: sign-up with the username lookup in front of the
    INSERT, update, delete and the login reply. */
module UserHandler {
  import opened Common
  import opened PyText
  import opened Json
  import opened Http
  import opened Sql
  import opened Store
  import UserDao

  predicate HasCredentials(body: Payload) {
    "username" in body && "password" in body
  }


  /** `mapUser(row)`. The password field carries the bcrypt text; the model
      keeps only its salt part (the digest is not modelled). */
  function UserJson(uid: int, row: UserRow): (r: Json)
    ensures r.JObj? && r.fields.Keys == {"uid", "username", "password"}
    ensures r.fields["uid"] == JInt(uid) && r.fields["username"] == JStr(row.username)
    ensures r.fields["password"] == JStr(row.password.salt)
  {
    JObj(map["uid" := JInt(uid), "username" := JStr(row.username), "password" := JStr(row.password.salt)])
  }

  /** `insertUser(body)` up to the INSERT: both fields, then the username
      lookup, then hashing (`.encode` needs a text password), then the text
      column the name is written to. */
  function InsertUserGuard(c: Catalog, body: Payload, salt: string): (r: Guard<UserRow>)
    ensures !HasCredentials(body) ==> r == Stop(Msg(400, "BAD REQUEST: Missing username or password"))
    ensures HasCredentials(body) && UserDao.UserByUsername(c.users, body["username"]).Row? ==>
      r == Stop(Msg(409, "Username already exists"))
    ensures r.Go? ==>
      && HasCredentials(body) && body["username"].JStr? && body["password"].JStr?
      && r.value == UserRow(body["username"].s, Hashpw(body["password"].s, salt))
      && UserDao.UserNamed(c.users, body["username"].s).None?
  {
    if !HasCredentials(body) then Stop(Msg(400, "BAD REQUEST: Missing username or password"))
    else match UserDao.UserByUsername(c.users, body["username"])
      case DbError => Stop(Uncaught(DbException))
      case Row(_) => Stop(Msg(409, "Username already exists"))
      case NoRow =>
        if !body["password"].JStr? then Stop(Uncaught(AttributeException))
        else match TextColumn(body["username"])
          case None => Stop(Uncaught(DbException))
          case Some(name) => Go(UserRow(name, Hashpw(body["password"].s, salt)))
  }

  /** A name nobody holds is accepted with any text password, and the row
      keeps the hash of that password. */
  lemma {:induction false} FreshNameAccepted(c: Catalog, name: string, password: string, salt: string)
    requires UserDao.UserNamed(c.users, name).None?
    ensures var g := InsertUserGuard(c, map["username" := JStr(name), "password" := JStr(password)], salt);
      && g.Go? && g.value.username == name && Checkpw(password, g.value.password)
  {
    var body := map["username" := JStr(name), "password" := JStr(password)];
    assert body["username"] == JStr(name) && body["password"] == JStr(password);
  }

  /** Sign-up keeps usernames unique. */
  lemma {:induction false} InsertKeepsUnique(c: Catalog, body: Payload, salt: string)
    requires c.Valid() && UserDao.UniqueUsernames(c.users) && InsertUserGuard(c, body, salt).Go?
    ensures UserDao.UniqueUsernames(c.users[c.nextUid := InsertUserGuard(c, body, salt).value])
  {
  }

  /** `updateUser(uid, body)` up to the UPDATE: both fields are checked
      before the user's existence. No username lookup is made. */
  function UpdateUserGuard(c: Catalog, uid: nat, body: Payload, salt: string): (r: Guard<UserRow>)
    ensures !HasCredentials(body) ==> r == Stop(Msg(400, "BAD REQUEST"))
    ensures HasCredentials(body) && uid !in c.users ==> r == Stop(Msg(404, "NOT FOUND"))
    ensures r.Go? ==>
      && HasCredentials(body) && uid in c.users && body["password"].JStr?
      && TextColumn(body["username"]) == Some(r.value.username)
      && r.value.password == Hashpw(body["password"].s, salt)
  {
    if !HasCredentials(body) then Stop(Msg(400, "BAD REQUEST"))
    else if uid !in c.users then Stop(Msg(404, "NOT FOUND"))
    else if !body["password"].JStr? then Stop(Uncaught(AttributeException))
    else match TextColumn(body["username"])
      case None => Stop(Uncaught(DbException))
      case Some(name) => Go(UserRow(name, Hashpw(body["password"].s, salt)))
  }

  /** Because the update makes no username lookup, renaming a user to a
      name another user holds goes through. */
  lemma UpdateCanDuplicateName()
    ensures var h := Hashpw("secret", "s");
      var c := Catalog(map[], map[], map[], map[], map[], map[1 := UserRow("ana", h), 2 := UserRow("luis", h)],
                       1, 1, 1, 1, 3);
      var g := UpdateUserGuard(c, 2, map["username" := JStr("ana"), "password" := JStr("x")], "t");
      && UserDao.UniqueUsernames(c.users) && g.Go? && !UserDao.UniqueUsernames(c.users[2 := g.value])
  {
    var h := Hashpw("secret", "s");
    var c := Catalog(map[], map[], map[], map[], map[], map[1 := UserRow("ana", h), 2 := UserRow("luis", h)],
                     1, 1, 1, 1, 3);
    var body := map["username" := JStr("ana"), "password" := JStr("x")];
    assert body["username"] == JStr("ana") && body["password"] == JStr("x");
    var g := UpdateUserGuard(c, 2, body, "t");
    var after := c.users[2 := g.value];
    assert after[1].username == after[2].username;
  }

  /** `insertUser(body)`: the guard, then one new row read back and
      answered 201. */
  method InsertUser(db: Database, body: Payload, salt: string) returns (resp: Response)
    requires db.Valid()
    modifies db
    ensures db.Valid()
    ensures var g := InsertUserGuard(old(db.Snapshot()), body, salt);
      if g.Stop? then resp == g.response && db.Snapshot() == old(db.Snapshot())
      else
        && db.Snapshot() == old(db.Snapshot()).(users := old(db.users)[old(db.nextUid) := g.value],
                                                nextUid := old(db.nextUid) + 1)
        && resp == Response(201, UserJson(old(db.nextUid), g.value))
    ensures old(UserDao.UniqueUsernames(db.users)) ==> UserDao.UniqueUsernames(db.users)
  {
    var g := InsertUserGuard(db.Snapshot(), body, salt);
    if g.Stop? {
      return g.response;
    }
    if UserDao.UniqueUsernames(db.users) {
      InsertKeepsUnique(db.Snapshot(), body, salt);
    }
    var uid := UserDao.InsertUser(db, body["username"].s, body["password"].s, salt);
    resp := Response(201, UserJson(uid, db.users[uid]));
  }

  /** `updateUser(uid, body)`: the guard, then row `uid` overwritten, read
      back and answered 200. */
  method UpdateUser(db: Database, uid: nat, body: Payload, salt: string) returns (resp: Response)
    requires db.Valid()
    modifies db
    ensures db.Valid()
    ensures var g := UpdateUserGuard(old(db.Snapshot()), uid, body, salt);
      if g.Stop? then resp == g.response && db.Snapshot() == old(db.Snapshot())
      else
        && db.Snapshot() == old(db.Snapshot()).(users := old(db.users)[uid := g.value])
        && resp == Response(200, UserJson(uid, g.value))
  {
    var g := UpdateUserGuard(db.Snapshot(), uid, body, salt);
    if g.Stop? {
      return g.response;
    }
    var updated := UserDao.UpdateUser(db, uid, g.value.username, body["password"].s, salt);
    resp := Response(200, UserJson(uid, db.users[uid]));
  }

  /** `deleteUser(uid)`: -1 becomes 404; a deletion is answered 204 with
      its message. */
  method DeleteUser(db: Database, uid: nat) returns (resp: Response)
    requires db.Valid()
    modifies db
    ensures db.Valid()
    ensures uid !in old(db.users) ==> resp == Msg(404, "User not found") && db.Snapshot() == old(db.Snapshot())
    ensures uid in old(db.users) ==>
      && resp == Msg(204, "User " + IntToString(uid) + " deleted successfully")
      && db.Snapshot() == old(db.Snapshot()).(users := old(db.users) - {uid})
    ensures old(UserDao.UniqueUsernames(db.users)) ==> UserDao.UniqueUsernames(db.users)
  {
    var deleted := UserDao.DeleteUser(db, uid);
    if deleted == -1 {
      return Msg(404, "User not found");
    }
    resp := Msg(204, "User " + IntToString(deleted) + " deleted successfully");
  }

  /** `dao.verifyUser(username, password)` on the two `.get` values, which
      are None for an absent key. */
  function LoginVerdict(c: Catalog, credentials: Payload): UserDao.Verdict {
    UserDao.VerifyUser(c.users, Get(credentials, "username", JNull), Get(credentials, "password", JNull))
  }

  /** `login(credentials)` as written: the two failure replies are Python
      set literals, which Flask cannot turn into a response, so both reach
      the client as a 500. */
  function LoginAsWritten(c: Catalog, credentials: Payload): (r: Response)
    ensures LoginVerdict(c, credentials) == UserDao.Verdict(None) ==> r == Uncaught(TypeException)
    ensures LoginVerdict(c, credentials) == UserDao.Verdict(Some(-1)) ==> r == Uncaught(TypeException)
  {
    match LoginVerdict(c, credentials)
    case Raised(e) => Uncaught(e)
    case Verdict(None) => Uncaught(TypeException)
    case Verdict(Some(uid)) =>
      if uid == -1 then Uncaught(TypeException)
      else Response(200, JObj(map["status" := JStr("Login successful"), "uid" := JInt(uid)]))
  }

  /** A wrong password, as written, is a 500 rather than a 401. */
  lemma WrongPasswordAsWritten(c: Catalog, uid: int, password: string)
    requires uid in c.users && uid != -1 && UserDao.UniqueUsernames(c.users)
    requires !Checkpw(password, c.users[uid].password)
    ensures LoginAsWritten(c, map["username" := JStr(c.users[uid].username), "password" := JStr(password)]).Code() == 500
  {
    var body := map["username" := JStr(c.users[uid].username), "password" := JStr(password)];
    assert Get(body, "username", JNull) == JStr(c.users[uid].username);
    assert Get(body, "password", JNull) == JStr(password);
    UserDao.VerifyUserOfStored(c.users, uid, password);
  }

  /** `login(credentials)` as intended: 404 for an unknown user, 401 for a
      wrong password, 200 with the uid otherwise. */
  function LoginReply(c: Catalog, credentials: Payload): (r: Response)
    ensures LoginVerdict(c, credentials) == UserDao.Verdict(None) ==> r == Msg(404, "User not found")
    ensures LoginVerdict(c, credentials) == UserDao.Verdict(Some(-1)) ==> r == Msg(401, "Invalid password")
    ensures r.Code() == 200 ==>
      && r.Response? && r.body.JObj? && "uid" in r.body.fields && r.body.fields["uid"].JInt?
      && r.body.fields["uid"].i in c.users
  {
    match LoginVerdict(c, credentials)
    case Raised(e) => Uncaught(e)
    case Verdict(None) => Msg(404, "User not found")
    case Verdict(Some(uid)) =>
      if uid == -1 then Msg(401, "Invalid password")
      else Response(200, JObj(map["status" := JStr("Login successful"), "uid" := JInt(uid)]))
  }

  /** With unique usernames, a stored user's name and the password their
      hash was made from log in as that user; any other password gets 401. */
  lemma {:induction false} LoginOfStored(c: Catalog, uid: int, password: string)
    requires uid in c.users && uid != -1 && UserDao.UniqueUsernames(c.users)
    ensures var r := LoginReply(c, map["username" := JStr(c.users[uid].username), "password" := JStr(password)]);
      if Checkpw(password, c.users[uid].password)
      then r == Response(200, JObj(map["status" := JStr("Login successful"), "uid" := JInt(uid)]))
      else r == Msg(401, "Invalid password")
  {
    var body := map["username" := JStr(c.users[uid].username), "password" := JStr(password)];
    assert Get(body, "username", JNull) == JStr(c.users[uid].username);
    assert Get(body, "password", JNull) == JStr(password);
    UserDao.VerifyUserOfStored(c.users, uid, password);
  }
}
