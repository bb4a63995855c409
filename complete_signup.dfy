/**
 * `POST /api/auth/complete-signup`: after a code was verified in the last
 * fifteen minutes, creates the user for the contact with a username derived
 * from the name (a numeric suffix makes it unique) and consumes the OTP.
 */
module CompleteSignup {
  import opened Wrappers
  import opened JsStrings
  import opened Query
  import opened Collections
  import opened UserModel
  import opened OtpModel

  datatype Request = Request(phoneOrEmail: Option<string>, kind: Option<string>, name: Option<string>)

  /** Fifteen minutes, how long a verified code may be used to sign up, in milliseconds. */
  const SignupWindow: int := 15 * 60 * 1000

  /** The filter `{ phoneOrEmail: contact, verified: true, createdAt: { $gte: since } }`. */
  function VerifiedSince(contact: string, since: int): Otp -> bool {
    (o: Otp) => o.data.phoneOrEmail == contact && o.data.verified && o.createdAt >= since
  }

  predicate UsernameChar(c: char) {
    'a' <= c <= 'z' || '0' <= c <= '9'
  }

  function KeptInUsername(): char -> bool {
    c => UsernameChar(c)
  }

  /** `name.toLowerCase().replace(/[^a-z0-9]/g, '')`. */
  function BaseUsername(name: string): (base: string)
    ensures forall i :: 0 <= i < |base| ==> UsernameChar(base[i])
    ensures |base| <= |name|
    ensures forall i :: 0 <= i < |name| && UsernameChar(LowerChar(name[i])) ==> LowerChar(name[i]) in base
    ensures |name| == 1 ==> base == if UsernameChar(LowerChar(name[0])) then [LowerChar(name[0])] else []
  {
    FilterMembers(ToLower(name), KeptInUsername());
    if |name| == 1 then
      assert ToLower(name) == [LowerChar(name[0])];
      assert ToLower(name)[1..] == [];
      Filter(ToLower(name), KeptInUsername())
    else
      Filter(ToLower(name), KeptInUsername())
  }

  /**
   * The base username of a concatenation is the concatenation of the base
   * usernames: with the one-character case above, this says the base keeps
   * every lowered letter and digit of the name, in order, and nothing else.
   */
  lemma BaseUsernameAppend(a: string, b: string)
    ensures BaseUsername(a + b) == BaseUsername(a) + BaseUsername(b)
  {
    assert ToLower(a + b) == ToLower(a) + ToLower(b);
    FilterAppend(ToLower(a), ToLower(b), KeptInUsername());
  }

  /** Deriving a base username from a base username changes nothing. */
  lemma BaseUsernameIdempotent(name: string)
    ensures BaseUsername(BaseUsername(name)) == BaseUsername(name)
  {
    var base := BaseUsername(name);
    assert ToLower(base) == base;
    FilterAll(base, KeptInUsername());
  }

  /** The `c`-th name tried: the base itself, then the base followed by 1, 2, 3, … */
  function Candidate(base: string, c: nat): string {
    if c == 0 then base else base + Decimal(c)
  }

  /** Different rounds of the loop try different names. */
  lemma CandidateInjective(base: string, c: nat, d: nat)
    requires Candidate(base, c) == Candidate(base, d)
    ensures c == d
  {
    if c != 0 && d != 0 {
      assert Decimal(c) == Candidate(base, c)[|base|..];
      assert Decimal(d) == Candidate(base, d)[|base|..];
      DecimalInjective(c, d);
    }
  }

  /** `User.findOne({ username })` finds someone. */
  predicate Taken(rows: seq<User>, username: string) {
    exists i :: 0 <= i < |rows| && rows[i].data.username == Some(username)
  }

  lemma {:induction false} BoundedCard(s: set<nat>, n: nat)
    requires forall i :: i in s ==> i < n
    ensures |s| <= n
  {
    if n == 0 {
      assert s == {};
    } else {
      BoundedCard(s - {n - 1}, n - 1);
    }
  }

  /** `Candidate(base, round)` is the first candidate nobody has. */
  ghost predicate FirstFree(rows: seq<User>, base: string, round: nat) {
    && !Taken(rows, Candidate(base, round))
    && forall c :: 0 <= c < round ==> Taken(rows, Candidate(base, c))
  }

  /** There is only one first free candidate. */
  lemma FirstFreeUnique(rows: seq<User>, base: string, r: nat, s: nat)
    requires FirstFree(rows, base, r) && FirstFree(rows, base, s)
    ensures r == s
  {
  }

  /**
   * The loop that makes the username unique: the first candidate no stored
   * user has. It stops because each taken candidate belongs to a different user.
   */
  method ChooseUsername(rows: seq<User>, base: string) returns (username: string, round: nat)
    ensures username == Candidate(base, round) && !Taken(rows, username)
    ensures FirstFree(rows, base, round)
    ensures round <= |rows|
  {
    username := base;
    var counter: nat := 1;
    ghost var owner: map<nat, nat> := map[];
    while Taken(rows, username)
      invariant username == Candidate(base, counter - 1)
      invariant forall c :: 0 <= c < counter - 1 ==> Taken(rows, Candidate(base, c))
      invariant |owner.Keys| == counter - 1
      invariant forall i :: i in owner ==> i < |rows| && owner[i] < counter - 1
      invariant forall i :: i in owner ==> rows[i].data.username == Some(Candidate(base, owner[i]))
      decreases |rows| - |owner.Keys|
    {
      ghost var previous := Candidate(base, counter - 1);
      ghost var k :| 0 <= k < |rows| && rows[k].data.username == Some(username);
      assert rows[k].data.username == Some(previous);
      if k in owner {
        assert rows[k].data.username == Some(Candidate(base, owner[k]));
        CandidateInjective(base, owner[k], counter - 1);
        assert false;
      }
      assert forall c :: 0 <= c < counter ==> Taken(rows, Candidate(base, c)) by {
        forall c | 0 <= c < counter ensures Taken(rows, Candidate(base, c)) {
          if c == counter - 1 {
            assert rows[k].data.username == Some(Candidate(base, c));
          }
        }
      }
      owner := owner[k := counter - 1];
      BoundedCard(owner.Keys, |rows|);
      username := base + Decimal(counter);
      counter := counter + 1;
      assert username == Candidate(base, counter - 1);
    }
    round := counter - 1;
    BoundedCard(owner.Keys, |rows|);
  }

  /** The document `User.create` is given for a sign-up by e-mail or by phone. */
  function SignupData(name: string, username: string, contact: string, kind: string, now: int): (d: UserData)
    ensures d.name == Trim(name) && d.username == Some(username) && d.status == "active" && d.lastActive == now
    ensures kind == "email" ==> d.email == contact && d.emailVerified && !d.phoneVerified && d.phone.None?
    ensures kind != "email" ==>
      d.phone == Some(contact) && d.phoneVerified && !d.emailVerified && d.email == username + "@vybe.temp"
    ensures d.passwordHash.None? && d.stats == Stats(0, 0, 0)
  {
    var d := NewUser(Trim(name), "", now).(username := Some(username));
    if kind == "email" then d.(email := contact, emailVerified := true)
    else d.(phone := Some(contact), phoneVerified := true, email := username + "@vybe.temp")
  }

  method Post(otps: Collection<OtpData>, users: Collection<UserData>, req: Request, now: int)
    returns (res: Response<User>)
    requires OtpModel.TableOk(otps) && UserModel.TableOk(users)
    modifies otps, users
    ensures OtpModel.TableOk(otps) && UserModel.TableOk(users)
    ensures !Truthy(req.phoneOrEmail) || !Truthy(req.kind) || !Truthy(req.name) ==>
      && res == Error(400, "Phone/email, type, and name are required")
      && otps.rows == old(otps.rows) && users.rows == old(users.rows)
    ensures Truthy(req.phoneOrEmail) && Truthy(req.kind) && Truthy(req.name) ==>
      var contact, kind, name := req.phoneOrEmail.value, req.kind.value, req.name.value;
      var otp := FindNewest(old(otps.rows), VerifiedSince(contact, now - SignupWindow), CreatedAt);
      var existing := FindOne(old(users.rows), ContactIs(kind, contact));
      && (otp.None? ==>
            && res == Error(400, "Verification expired. Please start again.")
            && otps.rows == old(otps.rows) && users.rows == old(users.rows))
      && (otp.Some? && existing.Some? ==>
            && res == Error(400, "User already exists")
            && otps.rows == old(otps.rows) && users.rows == old(users.rows))
      && (otp.Some? && existing.None? ==>
            exists round: nat ::
              && FirstFree(old(users.rows), BaseUsername(name), round)
              && var data := SignupData(name, Candidate(BaseUsername(name), round), contact, kind, now);
              && (!Insertable(old(users.rows), data) ==>
                    && res == Error(500, CreateRejected)
                    && otps.rows == old(otps.rows) && users.rows == old(users.rows))
              && (Insertable(old(users.rows), data) ==>
                    && |users.rows| == |old(users.rows)| + 1 && users.rows[..|old(users.rows)|] == old(users.rows)
                    && users.rows[|old(users.rows)|].data == data && users.rows[|old(users.rows)|].createdAt == now
                    && res == Ok(201, Public(users.rows[|old(users.rows)|]))
                    && otps.rows == Reject(old(otps.rows), HasId(otp.value.id))))
  {
    if !Truthy(req.phoneOrEmail) || !Truthy(req.kind) || !Truthy(req.name) {
      return Error(400, "Phone/email, type, and name are required");
    }
    var contact, kind, name := req.phoneOrEmail.value, req.kind.value, req.name.value;
    var otp := FindNewest(otps.rows, VerifiedSince(contact, now - SignupWindow), CreatedAt);
    if otp.None? {
      return Error(400, "Verification expired. Please start again.");
    }
    if FindOne(users.rows, ContactIs(kind, contact)).Some? {
      return Error(400, "User already exists");
    }
    var username, round := ChooseUsername(users.rows, BaseUsername(name));
    var data := SignupData(name, username, contact, kind, now);
    ghost var before := users.rows;
    var user := UserModel.Create(users, data, now);
    if user.None? {
      res := Error(500, CreateRejected);
      assert FirstFree(before, BaseUsername(name), round);
      return;
    }
    assert users.rows[..|before|] == before;
    assert FirstFree(before, BaseUsername(name), round);
    RejectKeepsOtps(otps.rows, HasId(otp.value.id));
    otps.DeleteById(otp.value.id);
    res := Ok(201, Public(user.value));
  }
}
