/**
 * `POST /api/auth/send-otp`: checks the contact, replaces any unverified
 * code for it by a fresh six-digit code valid for ten minutes, and hands the
 * code to the SMS or e-mail sender; a failed delivery takes the code back.
 */
module SendOtp {
  import opened Wrappers
  import opened JsStrings
  import opened Query
  import opened Collections
  import opened EmailFormat
  import UserModel
  import opened OtpModel

  /** The JSON body; a missing or non-string field is `None`. */
  datatype Request = Request(phoneOrEmail: Option<string>, kind: Option<string>)

  datatype Channel = Sms | Email

  /** The message handed to `sendOTPSMS` or `sendOTPEmail`. */
  datatype Delivery = Delivery(channel: Channel, to: string, code: string)

  /** The success body; `code` is echoed only in development. */
  datatype Sent = Sent(message: string, expiresIn: nat, code: Option<string>)

  /**
   * `generateOTP()` for the draw `n = Math.floor(100000 + Math.random() * 900000)`,
   * which lies in [100000, 999999]: the six decimal digits of the draw.
   */
  function GenerateOtp(n: nat): (code: string)
    requires 100000 <= n <= 999999
    ensures SixDigitCode(code)
    ensures ParseDecimal(code) == n
  {
    SixDigits(n);
    ParseDecimalOfDecimal(n);
    Decimal(n)
  }

  /** Different draws give different codes. */
  lemma GenerateOtpInjective(m: nat, n: nat)
    requires 100000 <= m <= 999999 && 100000 <= n <= 999999
    requires GenerateOtp(m) == GenerateOtp(n)
    ensures m == n
  {
  }

  /** The characters `/[\s-]/g` removes. */
  predicate Stripped(c: char) {
    IsSpace(c) || c == '-'
  }

  function KeptInPhone(): char -> bool {
    c => !Stripped(c)
  }

  /** `phoneOrEmail.replace(/[\s-]/g, '')`. */
  function CleanPhone(s: string): (r: string)
    ensures forall i :: 0 <= i < |r| ==> !Stripped(r[i])
    ensures |r| <= |s|
  {
    FilterMembers(s, KeptInPhone());
    Filter(s, KeptInPhone())
  }

  /** The first character that is neither white space nor a dash is a `+`. */
  ghost predicate PlusFirst(s: string) {
    exists k :: 0 <= k < |s| && s[k] == '+' && forall j :: 0 <= j < k ==> Stripped(s[j])
  }

  /** The cleaned phone number starts with `+` exactly when the raw one has `+` as its first kept character. */
  lemma {:induction false} CleanPhonePlus(s: string)
    ensures StartsWith(CleanPhone(s), "+") <==> PlusFirst(s)
  {
    if s == [] {
      assert CleanPhone(s) == [];
    } else if Stripped(s[0]) {
      assert CleanPhone(s) == CleanPhone(s[1..]) by {
        assert s == [s[0]] + s[1..];
      }
      CleanPhonePlus(s[1..]);
      PlusFirstSkips(s);
    } else {
      assert CleanPhone(s) == [s[0]] + CleanPhone(s[1..]) by {
        assert s == [s[0]] + s[1..];
      }
      PlusFirstHead(s);
    }
  }

  lemma PlusFirstSkips(s: string)
    requires s != [] && Stripped(s[0])
    ensures PlusFirst(s) <==> PlusFirst(s[1..])
  {
    if PlusFirst(s) {
      var k :| 0 <= k < |s| && s[k] == '+' && forall j :: 0 <= j < k ==> Stripped(s[j]);
      assert s[1..][k - 1] == '+';
      forall j | 0 <= j < k - 1 ensures Stripped(s[1..][j]) {
        assert s[1..][j] == s[j + 1];
      }
    }
    if PlusFirst(s[1..]) {
      var k :| 0 <= k < |s[1..]| && s[1..][k] == '+' && forall j :: 0 <= j < k ==> Stripped(s[1..][j]);
      assert s[k + 1] == '+';
      forall j | 0 <= j < k + 1 ensures Stripped(s[j]) {
        if j > 0 {
          assert s[j] == s[1..][j - 1];
        }
      }
    }
  }

  lemma PlusFirstHead(s: string)
    requires s != [] && !Stripped(s[0])
    ensures PlusFirst(s) <==> s[0] == '+'
  {
    if s[0] == '+' {
      assert 0 < |s| && s[0] == '+';
    }
  }

  /** The checks before any write: the error message of the first one that fails. */
  function RequestError(req: Request): (e: Option<string>)
    ensures e.None? <==>
      && Truthy(req.phoneOrEmail) && Truthy(req.kind)
      && (req.kind.value == "email" ==> MatchesPattern(req.phoneOrEmail.value))
      && (req.kind.value == "phone" ==> PlusFirst(req.phoneOrEmail.value))
  {
    if !Truthy(req.phoneOrEmail) || !Truthy(req.kind) then Some("Phone/email and type are required")
    else
      var contact, kind := req.phoneOrEmail.value, req.kind.value;
      IsEmailMatchesPattern(contact);
      CleanPhonePlus(contact);
      if kind == "email" && !IsEmail(contact) then Some("Invalid email format")
      else if kind == "phone" && !StartsWith(CleanPhone(contact), "+") then
        Some("Phone must start with country code (e.g., +1)")
      else None
  }

  function SentMessage(kind: string): string {
    "OTP sent to " + (if kind == "phone" then "your phone" else "your email")
  }

  /** `login` when a user already has this contact, `signup` otherwise. */
  function Purpose(users: seq<UserModel.User>, contact: string, kind: string): string {
    if UserModel.FindOne(users, UserModel.ContactIs(kind, contact)).Some? then "login" else "signup"
  }

  /** What `OTP.create` reports when the `type` is outside the schema's enumeration. */
  const CreateFailed: string := "OTP validation failed"

  /**
   * The handler. `draw` is the random number behind the code, `deliveryFails`
   * whether the SMS or e-mail sender throws, `development` whether the server
   * runs in development mode.
   */
  method Post(otps: Collection<OtpData>, users: Collection<UserModel.UserData>, req: Request,
              now: int, draw: nat, deliveryFails: bool, development: bool)
    returns (res: Response<Sent>, delivery: Option<Delivery>)
    requires 100000 <= draw <= 999999
    requires TableOk(otps)
    modifies otps
    ensures TableOk(otps)
    ensures RequestError(req).Some? ==>
      res == Error(400, RequestError(req).value) && delivery.None? && otps.rows == old(otps.rows)
    ensures RequestError(req).None? ==>
      var contact, kind := req.phoneOrEmail.value, req.kind.value;
      var kept := Reject(old(otps.rows), UnverifiedFor(contact));
      && (!ValidKind(kind) ==> res == Error(500, CreateFailed) && delivery.None? && otps.rows == kept)
      && (ValidKind(kind) ==>
            delivery == Some(Delivery(if kind == "phone" then Sms else Email, contact, GenerateOtp(draw))))
      && (ValidKind(kind) && deliveryFails ==>
            res == Error(500, "Failed to send OTP. Please try again.") && otps.rows == kept)
      && (ValidKind(kind) && !deliveryFails ==>
            && res == Ok(200, Sent(SentMessage(kind), 600, if development then Some(GenerateOtp(draw)) else None))
            && |otps.rows| == |kept| + 1 && otps.rows[..|kept|] == kept
            && otps.rows[|kept|].createdAt == now
            && otps.rows[|kept|].data ==
                 NewOtp(contact, kind, GenerateOtp(draw), now + CodeLifetime, Purpose(old(users.rows), contact, kind)))
    ensures res.Ok? ==>
      forall i :: 0 <= i < |otps.rows| - 1 ==> !UnverifiedFor(req.phoneOrEmail.value)(otps.rows[i])
  {
    var err := RequestError(req);
    if err.Some? {
      res, delivery := Error(400, err.value), None;
      return;
    }
    var contact, kind := req.phoneOrEmail.value, req.kind.value;
    var purpose := Purpose(users.rows, contact, kind);

    RejectKeepsOtps(otps.rows, UnverifiedFor(contact));
    RejectMembers(otps.rows, UnverifiedFor(contact));
    otps.DeleteWhere(UnverifiedFor(contact));
    ghost var kept := otps.rows;

    var code := GenerateOtp(draw);
    if !ValidKind(kind) {
      res, delivery := Error(500, CreateFailed), None;
      return;
    }
    var created := NewOtp(contact, kind, code, now + CodeLifetime, purpose);
    AppendKeepsOtps(kept, Doc(otps.nextId, now, created));
    var otp := otps.Create(created, now);
    assert otps.rows[..|kept|] == kept;

    delivery := Some(Delivery(if kind == "phone" then Sms else Email, contact, code));
    if deliveryFails {
      RejectFresh(kept, otp);
      otps.DeleteById(otp.id);
      res := Error(500, "Failed to send OTP. Please try again.");
      return;
    }
    res := Ok(200, Sent(SentMessage(kind), 600, if development then Some(code) else None));
  }
}
