/**
 * `POST /api/auth/email-login`: checks an e-mail address and password against
 * the stored bcrypt hash and records the visit.
 */
module EmailLogin {
  import opened Wrappers
  import opened JsStrings
  import opened Collections
  import opened PasswordHashing
  import opened UserModel

  datatype Request = Request(email: Option<string>, password: Option<string>)

  const BadCredentials: string := "Invalid email or password"

  const CredentialsRequired: string := "Email and password are required"

  const NoPassword: string := "No password set for this account. Please use phone/OTP login."

  /**
   * The user the credentials open, or the refusal the handler sends: 400 for
   * a missing field, and one 401 message for an unknown address and a wrong
   * password alike, so a refusal does not tell which of the two it was.
   */
  function Authenticate(rows: seq<User>, req: Request, h: Hasher): (r: Response<User>)
    ensures r.Ok? <==>
      && Truthy(req.email) && Truthy(req.password)
      && var u := FindOne(rows, EmailIs(ToLower(req.email.value)));
      && u.Some? && Truthy(u.value.data.passwordHash)
      && h.compare(req.password.value, u.value.data.passwordHash.value)
    ensures r.Ok? ==> r.body in rows && r.body.data.email == ToLower(req.email.value)
    ensures r.Error? ==> r.status == 400 || r.status == 401
    ensures r.Error? ==> (r.status == 400 <==> !Truthy(req.email) || !Truthy(req.password))
    ensures r.Error? && r.status == 400 ==> r.message == CredentialsRequired
    ensures Truthy(req.email) && Truthy(req.password) ==>
      var u := FindOne(rows, EmailIs(ToLower(req.email.value)));
      && (u.None? ==> r == Error(401, BadCredentials))
      && (u.Some? && !Truthy(u.value.data.passwordHash) ==> r == Error(401, NoPassword))
      && (u.Some? && Truthy(u.value.data.passwordHash) && !h.compare(req.password.value, u.value.data.passwordHash.value) ==>
            r == Error(401, BadCredentials))
  {
    if !Truthy(req.email) || !Truthy(req.password) then Error(400, CredentialsRequired)
    else match FindOne(rows, EmailIs(ToLower(req.email.value)))
      case None => Error(401, BadCredentials)
      case Some(u) =>
        if !Truthy(u.data.passwordHash) then Error(401, NoPassword)
        else if !h.compare(req.password.value, u.data.passwordHash.value) then Error(401, BadCredentials)
        else Ok(200, u)
  }

  method Post(users: Collection<UserData>, req: Request, h: Hasher, now: int) returns (res: Response<Session>)
    requires UserModel.TableOk(users)
    modifies users
    ensures UserModel.TableOk(users)
    ensures Authenticate(old(users.rows), req, h).Error? ==>
      var e := Authenticate(old(users.rows), req, h);
      res == Error(e.status, e.message) && users.rows == old(users.rows)
    ensures Authenticate(old(users.rows), req, h).Ok? ==>
      var u := Authenticate(old(users.rows), req, h).body;
      var v := u.data.(lastActive := now);
      && users.rows == SetData(old(users.rows), u.id, v)
      && res == Ok(200, SessionOf(u.(data := v), true))
  {
    var a := Authenticate(users.rows, req, h);
    if a.Error? {
      return Error(a.status, a.message);
    }
    var u := a.body;
    var v := u.data.(lastActive := now);
    var _ := Locate(users.rows, u);
    UserModel.Save(users, u.id, v);
    res := Ok(200, SessionOf(u.(data := v), true));
  }

  /**
   * An account made by e-mail sign-up opens with its password, whatever the
   * case of the ASCII letters in the address, and with no other password.
   */
  lemma SignupThenLogin(rows: seq<User>, d: User, password: string, salt: nat, email: string, guess: string, h: Hasher)
    requires Sound(h)
    requires forall i :: 0 <= i < |rows| ==> rows[i].data.email != d.data.email
    requires d.data.passwordHash == Some(h.hash(password, salt))
    requires email != "" && guess != "" && ToLower(email) == d.data.email
    ensures Authenticate(rows + [d], Request(Some(email), Some(guess)), h).Ok? <==> guess == password
  {
    var all := rows + [d];
    var u := FindOne(all, EmailIs(ToLower(email)));
    assert EmailIs(ToLower(email))(all[|rows|]);
    assert u == Some(d) by {
      var k :| 0 <= k < |all| && all[k] == u.value;
      if k < |rows| {
        assert all[k] == rows[k];
      }
    }
  }
}
