/** The chatbot's sign-up and log-in form checks. Both run against the user
    table; the form widgets themselves are not modelled. */
module SignIn {
  import opened Common
  import opened Json
  import opened Store
  import UserDao

  /** A character of the class `[a-zA-Z0-9_]`. */
  predicate IsWordChar(c: char) {
    ('a' <= c <= 'z') || ('A' <= c <= 'Z') || ('0' <= c <= '9') || c == '_'
  }

  predicate AllWordChars(s: string) {
    forall i :: 0 <= i < |s| ==> IsWordChar(s[i])
  }

  /** `re.match("^[a-zA-Z0-9_]+$", s)`: one or more word characters up to
      the end, where `$` also matches just before a final newline. */
  predicate UsernamePattern(s: string) {
    || (|s| >= 1 && AllWordChars(s))
    || (|s| >= 2 && s[|s| - 1] == '\n' && AllWordChars(s[..|s| - 1]))
  }

  /** On text without a newline the pattern says: non-empty, and word
      characters only. */
  lemma PatternWithoutNewline(s: string)
    requires '\n' !in s
    ensures UsernamePattern(s) <==> |s| >= 1 && AllWordChars(s)
  {
    if |s| >= 2 {
      assert s[|s| - 1] in s;
      assert s[|s| - 1] != '\n';
    }
  }

  /** The trailing newline the pattern lets through. */
  lemma PatternAcceptsFinalNewline()
    ensures UsernamePattern("ab\n") && !AllWordChars("ab\n")
  {
    assert "ab\n"[..2] == "ab";
    assert !IsWordChar("ab\n"[2]);
  }

  const ShortUsername: string := "Username must be at least 2 characters long."
  const BadUsername: string := "Username can only contain letters, numbers, and underscores."
  const TakenUsername: string := "Username already exists."
  const ShortPassword: string := "Password must be at least 6 characters long."
  const Mismatch: string := "Passwords do not match."

  /** `validate_signup(username, pass1, pass2)`: the checks in order, the
      first failure's message, else (True, "OK"). */
  function ValidateSignup(users: map<int, UserRow>, username: string, pass1: string, pass2: string): (r: (bool, string))
    ensures r.0 <==>
      && |username| >= 2 && UsernamePattern(username)
      && UserDao.UserNamed(users, username).None?
      && |pass1| >= 6 && pass1 == pass2
    ensures r.0 ==> r.1 == "OK"
    ensures |username| < 2 ==> r == (false, ShortUsername)
    ensures |username| >= 2 && !UsernamePattern(username) ==> r == (false, BadUsername)
    ensures |username| >= 2 && UsernamePattern(username) && UserDao.UserNamed(users, username).Some? ==>
      r == (false, TakenUsername)
  {
    if |username| < 2 then (false, ShortUsername)
    else if !UsernamePattern(username) then (false, BadUsername)
    else if UserDao.UserByUsername(users, JStr(username)).Row? then (false, TakenUsername)
    else if |pass1| < 6 then (false, ShortPassword)
    else if pass1 != pass2 then (false, Mismatch)
    else (true, "OK")
  }

  /** A rejected sign-up names the first rule it breaks: a free, well-formed
      name with a short password is told about the password, and one with
      a long enough but unconfirmed password about the mismatch. */
  lemma {:induction false} PasswordRulesAfterName(users: map<int, UserRow>, username: string, pass1: string, pass2: string)
    requires |username| >= 2 && UsernamePattern(username) && UserDao.UserNamed(users, username).None?
    ensures |pass1| < 6 ==> ValidateSignup(users, username, pass1, pass2) == (false, ShortPassword)
    ensures |pass1| >= 6 && pass1 != pass2 ==> ValidateSignup(users, username, pass1, pass2) == (false, Mismatch)
  {
    assert UserDao.UserByUsername(users, JStr(username)).NoRow?;
  }

  /** `validate_login(username, password)`: None is an unknown name, -1 a
      wrong password, anything else a success. */
  function ValidateLogin(users: map<int, UserRow>, username: string, password: string): (r: (bool, string))
    ensures UserDao.UserNamed(users, username).None? ==> r == (false, "Username does not exist.")
    ensures r.0 ==> r.1 == "OK"
  {
    match UserDao.VerifyUser(users, JStr(username), JStr(password))
    case Raised(_) => assert false; (false, "")
    case Verdict(None) => (false, "Username does not exist.")
    case Verdict(Some(uid)) => if uid == -1 then (false, "Incorrect password.") else (true, "OK")
  }

  /** With unique usernames, a stored user logs in exactly with the password
      their hash was made from. */
  lemma {:induction false} LoginOfStoredUser(users: map<int, UserRow>, uid: int, password: string)
    requires uid in users && uid != -1
    requires UserDao.UniqueUsernames(users)
    ensures ValidateLogin(users, users[uid].username, password) ==
      (if Checkpw(password, users[uid].password) then (true, "OK") else (false, "Incorrect password."))
  {
    UserDao.VerifyUserOfStored(users, uid, password);
  }

  /** A user who signs up with an accepted form, and whose row then holds
      the hash of that password, logs in with it. */
  lemma {:induction false} SignupThenLogin(users: map<int, UserRow>, uid: int, username: string, pass: string, salt: string)
    requires ValidateSignup(users, username, pass, pass).0
    requires uid !in users && uid != -1
    requires UserDao.UniqueUsernames(users)
    ensures ValidateLogin(users[uid := UserRow(username, Hashpw(pass, salt))], username, pass) == (true, "OK")
  {
    var after := users[uid := UserRow(username, Hashpw(pass, salt))];
    forall a, b | a in after && b in after && a != b ensures after[a].username != after[b].username {
      if a == uid {
        assert b in users;
      } else if b == uid {
        assert a in users;
      }
    }
    LoginOfStoredUser(after, uid, pass);
  }
}
