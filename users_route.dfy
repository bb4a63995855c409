/**
 * `GET /api/users` (one user by `id` or `email`, or the newest active users)
 * and `POST /api/users` (create a user, password optional). Users leave the
 * route without their password hash.
 */
module UsersRoute {
  import opened Wrappers
  import opened Query
  import opened Collections
  import opened PasswordHashing
  import opened UserModel

  /** The search parameters `id` and `email`; an absent one is `None`. */
  datatype Params = Params(id: Option<string>, email: Option<string>)

  datatype Found = One(user: User) | Many(users: seq<User>)

  const ListLimit: int := 100

  /**
   * The server's default answer when the handler throws: `findById` on text
   * that is no id, or `User.create` refusing the document (neither is caught).
   */
  const Uncaught: string := "Internal Server Error"

  const NotFound: string := "User not found"

  function StatusIs(status: string): User -> bool {
    (u: User) => u.data.status == status
  }

  function PublicAll(s: seq<User>): (r: seq<User>)
    ensures |r| == |s|
    ensures forall i :: 0 <= i < |s| ==> r[i] == Public(s[i])
  {
    seq(|s|, i requires 0 <= i < |s| => Public(s[i]))
  }

  /** The single-user answer: the found user without hash, or 404. */
  function Single(found: Option<User>): Response<Found> {
    if found.None? then Error(404, NotFound) else Ok(200, One(Public(found.value)))
  }

  /** The listing: `find({ status: 'active' }).sort({ createdAt: -1 }).limit(100)`, without hashes. */
  function ActiveUsers(rows: seq<User>): seq<User> {
    PublicAll(Newest(rows, StatusIs("active"), CreatedAt, ListLimit))
  }

  function Get(rows: seq<User>, p: Params): (r: Response<Found>)
    ensures Truthy(p.id) ==>
      && (ParseId(p.id.value).None? ==> r == Error(500, Uncaught))
      && (ParseId(p.id.value).Some? ==>
            && (r.Ok? <==> exists k :: 0 <= k < |rows| && rows[k].id == ParseId(p.id.value).value)
            && (r.Ok? ==> exists k :: 0 <= k < |rows| && rows[k].id == ParseId(p.id.value).value && r.body == One(Public(rows[k])))
            && (r.Ok? ==> r.status == 200)
            && (!r.Ok? ==> r == Error(404, NotFound)))
    ensures !Truthy(p.id) && Truthy(p.email) ==>
      && (r.Ok? <==> exists k :: 0 <= k < |rows| && rows[k].data.email == p.email.value)
      && (r.Ok? ==> exists k :: 0 <= k < |rows| && rows[k].data.email == p.email.value && r.body == One(Public(rows[k])))
      && (r.Ok? ==> r.status == 200)
      && (!r.Ok? ==> r == Error(404, NotFound))
    ensures !Truthy(p.id) && !Truthy(p.email) ==> r == Ok(200, Many(ActiveUsers(rows)))
    ensures r.Error? ==> r.status == 404 || r.status == 500
    ensures r.Ok? && r.body.One? ==> r.body.user.data.passwordHash.None?
  {
    if Truthy(p.id) then
      match ParseId(p.id.value)
      case None => Error(500, Uncaught)
      case Some(id) => Single(FindOne(rows, HasId(id)))
    else if Truthy(p.email) then Single(FindOne(rows, EmailIs(p.email.value)))
    else Ok(200, Many(ActiveUsers(rows)))
  }

  /**
   * The listing holds active users only, without hashes, newest first, at most
   * a hundred of them, none more often than it is stored, and every active
   * user left out is no newer than any listed one.
   */
  lemma ActiveUsersSpec(rows: seq<User>)
    ensures var r := ActiveUsers(rows);
      && |r| <= ListLimit
      && (forall i :: 0 <= i < |r| ==> r[i].data.passwordHash.None? && r[i].data.status == "active")
      && (forall i :: 0 <= i < |r| ==> exists k :: 0 <= k < |rows| && r[i] == Public(rows[k]))
      && (forall i, j :: 0 <= i < j < |r| ==> r[i].createdAt >= r[j].createdAt)
    ensures var n := Newest(rows, StatusIs("active"), CreatedAt, ListLimit);
      && multiset(n) <= multiset(rows)
      && |ActiveUsers(rows)| == |n|
      && forall i :: 0 <= i < |n| ==> ActiveUsers(rows)[i] == Public(n[i])
    ensures forall k, i ::
      (&& 0 <= k < |rows| && 0 <= i < |ActiveUsers(rows)| && rows[k].data.status == "active"
       && rows[k] !in Newest(rows, StatusIs("active"), CreatedAt, ListLimit)) ==>
        rows[k].createdAt <= ActiveUsers(rows)[i].createdAt
  {
    NewestSpec(rows, StatusIs("active"), CreatedAt, ListLimit);
    ActiveUsersListed(rows);
    ActiveUsersLeaveOutOlder(rows);
  }

  lemma ActiveUsersListed(rows: seq<User>)
    ensures var r := ActiveUsers(rows);
      && |r| <= ListLimit
      && (forall i :: 0 <= i < |r| ==> r[i].data.passwordHash.None? && r[i].data.status == "active")
      && (forall i :: 0 <= i < |r| ==> exists k :: 0 <= k < |rows| && r[i] == Public(rows[k]))
      && (forall i, j :: 0 <= i < j < |r| ==> r[i].createdAt >= r[j].createdAt)
  {
    var n := Newest(rows, StatusIs("active"), CreatedAt, ListLimit);
    NewestMatch(rows, StatusIs("active"), CreatedAt, ListLimit);
    forall i | 0 <= i < |n| ensures exists k :: 0 <= k < |rows| && ActiveUsers(rows)[i] == Public(rows[k]) {
      var k :| 0 <= k < |rows| && rows[k] == n[i];
    }
  }

  lemma ActiveUsersLeaveOutOlder(rows: seq<User>)
    ensures forall k, i ::
      (&& 0 <= k < |rows| && 0 <= i < |ActiveUsers(rows)| && rows[k].data.status == "active"
       && rows[k] !in Newest(rows, StatusIs("active"), CreatedAt, ListLimit)) ==>
        rows[k].createdAt <= ActiveUsers(rows)[i].createdAt
  {
    var n := Newest(rows, StatusIs("active"), CreatedAt, ListLimit);
    NewestSpec(rows, StatusIs("active"), CreatedAt, ListLimit);
    forall k, i | 0 <= k < |rows| && 0 <= i < |n| && rows[k].data.status == "active" && rows[k] !in n
      ensures rows[k].createdAt <= ActiveUsers(rows)[i].createdAt
    {
      assert StatusIs("active")(rows[k]);
      assert ActiveUsers(rows)[i].createdAt == n[i].createdAt;
    }
  }

  datatype Body = Body(
    name: Option<string>, username: Option<string>, email: Option<string>, phone: Option<string>,
    avatar: Option<string>, bio: Option<string>, password: Option<string>)

  /**
   * The filter `{ email: body.email }`. Mongoose drops a key whose value is
   * `undefined`, so without an e-mail the filter selects every user.
   */
  function EmailFilter(email: Option<string>): User -> bool {
    if email.None? then (u: User) => true else EmailIs(email.value)
  }

  /** The document `User.create` is given; the password, when present, only as its hash. */
  function BodyData(b: Body, h: Hasher, salt: nat, now: int): (d: UserData)
    ensures d.passwordHash == if Truthy(b.password) then Some(h.hash(b.password.value, salt)) else None
    ensures d.username == b.username && d.phone == b.phone && d.avatar == b.avatar && d.bio == b.bio
    ensures !d.emailVerified && !d.phoneVerified && d.status == "active"
    ensures d.name == (if b.name.Some? then b.name.value else "")
    ensures d.email == (if b.email.Some? then b.email.value else "")
  {
    NewUser(b.name.GetOr(""), b.email.GetOr(""), now).(
      username := b.username, phone := b.phone, avatar := b.avatar, bio := b.bio,
      passwordHash := if Truthy(b.password) then Some(h.hash(b.password.value, salt)) else None)
  }

  method Post(users: Collection<UserData>, b: Body, h: Hasher, salt: nat, now: int) returns (res: Response<User>)
    requires UserModel.TableOk(users)
    modifies users
    ensures UserModel.TableOk(users)
    ensures FindOne(old(users.rows), EmailFilter(b.email)).Some? ==>
      res == Error(400, "User already exists") && users.rows == old(users.rows)
    ensures FindOne(old(users.rows), EmailFilter(b.email)).None? ==>
      var d := BodyData(b, h, salt, now);
      && (!Insertable(old(users.rows), d) ==> res == Error(500, Uncaught) && users.rows == old(users.rows))
      && (Insertable(old(users.rows), d) ==>
            var n := |old(users.rows)|;
            && |users.rows| == n + 1 && users.rows[..n] == old(users.rows)
            && users.rows[n].data == d && users.rows[n].createdAt == now
            && res == Ok(201, Public(users.rows[n])))
  {
    if FindOne(users.rows, EmailFilter(b.email)).Some? {
      return Error(400, "User already exists");
    }
    var d := BodyData(b, h, salt, now);
    ghost var before := users.rows;
    var user := UserModel.Create(users, d, now);
    if user.None? {
      return Error(500, Uncaught);
    }
    assert users.rows[..|before|] == before;
    res := Ok(201, Public(user.value));
  }

  /** Without an e-mail in the body, the request is refused as a duplicate as soon as any user exists. */
  lemma PostWithoutEmail(rows: seq<User>)
    requires rows != []
    ensures FindOne(rows, EmailFilter(None)).Some?
  {
    assert EmailFilter(None)(rows[0]);
  }
}
