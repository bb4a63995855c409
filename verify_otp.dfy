/**
 * `POST /api/auth/verify-otp`: checks a code against the contact's latest
 * unverified OTP. An expired or exhausted OTP is deleted, a wrong code costs
 * one attempt, a right one marks the OTP verified and either logs in the user
 * who owns the contact or reports that a profile is still to be completed.
 */
module VerifyOtp {
  import opened Wrappers
  import opened Query
  import opened Collections
  import UserModel
  import opened OtpModel

  datatype Request = Request(phoneOrEmail: Option<string>, code: Option<string>)

  datatype Reply =
    | Failure(status: nat, error: string, attemptsRemaining: Option<int>)
      /** 200 with `isNewUser: false`: the stored user, without its password hash. */
    | LoggedIn(user: UserModel.User)
      /** 200 with `isNewUser: true`: no user has this contact yet. */
    | NewUser(phoneOrEmail: string, kind: string)

  /** `OTP.findOne({ phoneOrEmail, verified: false }).sort({ createdAt: -1 })`. */
  function Pending(rows: seq<Otp>, contact: string): Option<Otp> {
    FindNewest(rows, UnverifiedFor(contact), CreatedAt)
  }

  /**
   * Under the collection invariant the sort does not matter: the contact's
   * unverified OTP, if it has one, is the only one.
   */
  lemma PendingUnique(rows: seq<Otp>, contact: string, i: nat)
    requires OtpsOk(rows) && i < |rows| && UnverifiedFor(contact)(rows[i])
    ensures Pending(rows, contact) == Some(rows[i])
  {
    var p := Pending(rows, contact);
    var k :| 0 <= k < |rows| && rows[k] == p.value;
    assert k == i;
  }

  datatype Check = Expired | Exhausted | Wrong | Accepted

  /** The three checks on a found OTP, in the handler's order. */
  function Judge(o: OtpData, code: string, now: int): (c: Check)
    ensures c == Accepted <==> now <= o.expiresAt && o.attempts < o.maxAttempts && o.code == code
    ensures c == Expired <==> now > o.expiresAt
    ensures c == Exhausted <==> now <= o.expiresAt && o.attempts >= o.maxAttempts
    ensures c == Wrong <==> now <= o.expiresAt && o.attempts < o.maxAttempts && o.code != code
  {
    if now > o.expiresAt then Expired
    else if o.attempts >= o.maxAttempts then Exhausted
    else if o.code != code then Wrong
    else Accepted
  }

  /** A right code marks the channel it came through as verified and records the visit. */
  function Confirm(u: UserModel.UserData, kind: string, now: int): (v: UserModel.UserData)
    ensures v.email == u.email && v.username == u.username && v.phone == u.phone
    ensures v.lastActive == now
    ensures kind == "email" ==> v.emailVerified && v.phoneVerified == u.phoneVerified
    ensures kind != "email" ==> v.phoneVerified && v.emailVerified == u.emailVerified
    ensures v.(emailVerified := u.emailVerified, phoneVerified := u.phoneVerified, lastActive := u.lastActive) == u
  {
    if kind == "email" then u.(emailVerified := true, lastActive := now)
    else u.(phoneVerified := true, lastActive := now)
  }

  /** The user lookup after a right code: a login for a known contact, a pending sign-up otherwise. */
  method Login(users: Collection<UserModel.UserData>, contact: string, kind: string, now: int) returns (reply: Reply)
    requires UserModel.TableOk(users)
    modifies users
    ensures UserModel.TableOk(users)
    ensures var u := UserModel.FindOne(old(users.rows), UserModel.ContactIs(kind, contact));
      && (u.None? ==> reply == NewUser(contact, kind) && users.rows == old(users.rows))
      && (u.Some? ==>
            var v := Confirm(u.value.data, kind, now);
            && users.rows == SetData(old(users.rows), u.value.id, v)
            && reply == LoggedIn(UserModel.Public(u.value.(data := v))))
  {
    var u := UserModel.FindOne(users.rows, UserModel.ContactIs(kind, contact));
    if u.None? {
      return NewUser(contact, kind);
    }
    var v := Confirm(u.value.data, kind, now);
    var _ := Locate(users.rows, u.value);
    UserModel.Save(users, u.value.id, v);
    reply := LoggedIn(UserModel.Public(u.value.(data := v)));
  }

  method Post(otps: Collection<OtpData>, users: Collection<UserModel.UserData>, req: Request, now: int)
    returns (reply: Reply)
    requires TableOk(otps) && UserModel.TableOk(users)
    modifies otps, users
    ensures TableOk(otps) && UserModel.TableOk(users)
    ensures !Truthy(req.phoneOrEmail) || !Truthy(req.code) ==>
      && reply == Failure(400, "Phone/email and code are required", None)
      && otps.rows == old(otps.rows) && users.rows == old(users.rows)
    ensures Truthy(req.phoneOrEmail) && Truthy(req.code) ==>
      var contact, code := req.phoneOrEmail.value, req.code.value;
      var p := Pending(old(otps.rows), contact);
      && (p.None? ==>
            && reply == Failure(404, "No OTP found. Please request a new one.", None)
            && otps.rows == old(otps.rows) && users.rows == old(users.rows))
      && (p.Some? && Judge(p.value.data, code, now) == Expired ==>
            && reply == Failure(400, "OTP expired. Please request a new one.", None)
            && otps.rows == Reject(old(otps.rows), HasId(p.value.id)) && users.rows == old(users.rows))
      && (p.Some? && Judge(p.value.data, code, now) == Exhausted ==>
            && reply == Failure(429, "Too many attempts. Please request a new OTP.", None)
            && otps.rows == Reject(old(otps.rows), HasId(p.value.id)) && users.rows == old(users.rows))
      && (p.Some? && Judge(p.value.data, code, now) == Wrong ==>
            var o := p.value.data;
            && reply == Failure(400, "Invalid code", Some(o.maxAttempts - (o.attempts + 1)))
            && otps.rows == SetData(old(otps.rows), p.value.id, o.(attempts := o.attempts + 1))
            && users.rows == old(users.rows))
      && (p.Some? && Judge(p.value.data, code, now) == Accepted ==>
            var o := p.value.data;
            var u := UserModel.FindOne(old(users.rows), UserModel.ContactIs(o.kind, contact));
            && otps.rows == SetData(old(otps.rows), p.value.id, o.(verified := true))
            && (u.None? ==> reply == NewUser(contact, o.kind) && users.rows == old(users.rows))
            && (u.Some? ==>
                  var v := Confirm(u.value.data, o.kind, now);
                  && users.rows == SetData(old(users.rows), u.value.id, v)
                  && reply == LoggedIn(UserModel.Public(u.value.(data := v)))))
    ensures reply.Failure? && reply.attemptsRemaining.Some? ==> reply.attemptsRemaining.value >= 0
    ensures reply.LoggedIn? ==> reply.user.data.passwordHash.None?
  {
    if !Truthy(req.phoneOrEmail) || !Truthy(req.code) {
      return Failure(400, "Phone/email and code are required", None);
    }
    var contact, code := req.phoneOrEmail.value, req.code.value;
    var p := Pending(otps.rows, contact);
    if p.None? {
      return Failure(404, "No OTP found. Please request a new one.", None);
    }
    var otp := p.value;
    var k := Locate(otps.rows, otp);
    match Judge(otp.data, code, now)
    case Expired =>
      RejectKeepsOtps(otps.rows, HasId(otp.id));
      otps.DeleteById(otp.id);
      reply := Failure(400, "OTP expired. Please request a new one.", None);
    case Exhausted =>
      RejectKeepsOtps(otps.rows, HasId(otp.id));
      otps.DeleteById(otp.id);
      reply := Failure(429, "Too many attempts. Please request a new OTP.", None);
    case Wrong =>
      var o := otp.data.(attempts := otp.data.attempts + 1);
      SaveKeepsOtps(otps.rows, k, o);
      otps.Save(otp.id, o);
      reply := Failure(400, "Invalid code", Some(o.maxAttempts - o.attempts));
    case Accepted =>
      var o := otp.data.(verified := true);
      SaveKeepsOtps(otps.rows, k, o);
      otps.Save(otp.id, o);
      reply := Login(users, contact, otp.data.kind, now);
  }
}
