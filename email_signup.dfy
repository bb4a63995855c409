/**
 * `POST /api/auth/email-signup`: creates an e-mail/password account. The
 * address is stored in lower case and counts as verified; the password is
 * kept only as a bcrypt hash.
 */
module EmailSignup {
  import opened Wrappers
  import opened JsStrings
  import opened Collections
  import opened EmailFormat
  import opened PasswordHashing
  import opened UserModel

  datatype Request = Request(name: Option<string>, email: Option<string>, password: Option<string>)

  const MinPasswordLength: nat := 6

  /** The checks that need no lookup: the message of the first one that fails. */
  function RequestError(req: Request): (e: Option<string>)
    ensures e.None? <==>
      && Truthy(req.name) && Truthy(req.email) && Truthy(req.password)
      && MatchesPattern(req.email.value)
      && |req.password.value| >= MinPasswordLength
  {
    if !Truthy(req.name) || !Truthy(req.email) || !Truthy(req.password) then
      Some("Name, email, and password are required")
    else
      IsEmailMatchesPattern(req.email.value);
      if !IsEmail(req.email.value) then Some("Invalid email format")
      else if |req.password.value| < MinPasswordLength then Some("Password must be at least 6 characters")
      else None
  }

  /** The document created for a sign-up. */
  function SignupData(name: string, email: string, hash: string, now: int): (d: UserData)
    ensures d.name == name && d.email == ToLower(email) && d.emailVerified
    ensures d.passwordHash == Some(hash) && d.username.None? && d.stats == Stats(0, 0, 0)
  {
    NewUser(name, ToLower(email), now).(emailVerified := true, passwordHash := Some(hash))
  }

  /**
   * The handler. `h` and `salt` stand for bcrypt and the salt it draws;
   * `welcome` is the welcome mail started without waiting (address and name).
   */
  method Post(users: Collection<UserData>, req: Request, h: Hasher, salt: nat, now: int)
    returns (res: Response<Session>, welcome: Option<(string, string)>)
    requires UserModel.TableOk(users)
    modifies users
    ensures UserModel.TableOk(users)
    ensures RequestError(req).Some? ==>
      res == Error(400, RequestError(req).value) && welcome.None? && users.rows == old(users.rows)
    ensures RequestError(req).None? ==>
      var email := ToLower(req.email.value);
      && (FindOne(old(users.rows), EmailIs(email)).Some? ==>
            && res == Error(409, "User with this email already exists")
            && welcome.None? && users.rows == old(users.rows))
      && (FindOne(old(users.rows), EmailIs(email)).None? ==>
            var n := |old(users.rows)|;
            && |users.rows| == n + 1 && users.rows[..n] == old(users.rows)
            && users.rows[n].createdAt == now
            && users.rows[n].data == SignupData(req.name.value, req.email.value, h.hash(req.password.value, salt), now)
            && res == Ok(201, SessionOf(users.rows[n], false))
            && welcome == Some((email, req.name.value)))
  {
    var err := RequestError(req);
    if err.Some? {
      return Error(400, err.value), None;
    }
    var name, email, password := req.name.value, ToLower(req.email.value), req.password.value;
    if FindOne(users.rows, EmailIs(email)).Some? {
      return Error(409, "User with this email already exists"), None;
    }
    var data := SignupData(name, req.email.value, h.hash(password, salt), now);
    ghost var before := users.rows;
    var user := UserModel.Create(users, data, now);
    assert Insertable(before, data);
    assert users.rows[..|before|] == before;
    res := Ok(201, SessionOf(user.value, false));
    welcome := Some((email, name));
  }
}
