/**
 * The user document and the parts of its Mongoose schema that decide whether
 * a `User.create` succeeds: `name` and `email` are required, `email` is
 * unique, and `username` is unique among the users that have one.
 */
module UserModel {
  import opened Wrappers
  import opened Query
  import opened Collections

  datatype Stats = Stats(eventsCreated: nat, eventsJoined: nat, totalVotes: nat)

  datatype UserData = UserData(
    name: string,
    username: Option<string>,
    email: string,
    emailVerified: bool,
    phone: Option<string>,
    phoneVerified: bool,
    avatar: Option<string>,
    bio: Option<string>,
    passwordHash: Option<string>,
    stats: Stats,
    status: string,
    lastActive: int)

  type User = Doc<UserData>

  /** A user document with the schema defaults for every field not given. */
  function NewUser(name: string, email: string, now: int): UserData {
    UserData(name, None, email, false, None, false, None, None, None, Stats(0, 0, 0), "active", now)
  }

  /** The unique indexes of the schema hold over the stored users. */
  ghost predicate UniqueKeys(rows: seq<User>) {
    && (forall i, j :: 0 <= i < |rows| && 0 <= j < |rows| && i != j ==> rows[i].data.email != rows[j].data.email)
    && (forall i, j :: 0 <= i < |rows| && 0 <= j < |rows| && i != j && rows[i].data.username.Some? ==>
          rows[i].data.username != rows[j].data.username)
  }

  ghost predicate TableOk(users: Collection<UserData>)
    reads users
  {
    users.Valid() && UniqueKeys(users.rows)
  }

  /** The error `User.create` reports when validation or a unique index refuses the document. */
  const CreateRejected: string := "User validation failed"

  /** Whether `User.create(d)` passes validation and the unique indexes. */
  predicate Insertable(rows: seq<User>, d: UserData) {
    && d.name != "" && d.email != ""
    && (forall i :: 0 <= i < |rows| ==> rows[i].data.email != d.email)
    && (d.username.Some? ==> forall i :: 0 <= i < |rows| ==> rows[i].data.username != d.username)
  }

  /** Changes that leave every e-mail and username where it was keep the unique indexes. */
  lemma KeysKept(rows: seq<User>, rows': seq<User>)
    requires UniqueKeys(rows)
    requires |rows'| == |rows|
    requires forall i :: 0 <= i < |rows| ==>
      rows'[i].data.email == rows[i].data.email && rows'[i].data.username == rows[i].data.username
    ensures UniqueKeys(rows')
  {
  }

  /** `User.create(d)`: a new user, or a validation / duplicate-key error that stores nothing. */
  method Create(users: Collection<UserData>, d: UserData, now: int) returns (u: Option<User>)
    requires TableOk(users)
    modifies users
    ensures TableOk(users)
    ensures Insertable(old(users.rows), d) ==>
      && u.Some? && u.value.data == d && u.value.createdAt == now
      && users.rows == old(users.rows) + [u.value]
    ensures !Insertable(old(users.rows), d) ==> u.None? && users.rows == old(users.rows)
  {
    if Insertable(users.rows, d) {
      var doc := users.Create(d, now);
      u := Some(doc);
    } else {
      u := None;
    }
  }

  /** `user.save()` after changes that leave the unique keys alone. */
  method Save(users: Collection<UserData>, id: Id, d: UserData)
    requires TableOk(users)
    requires forall i :: 0 <= i < |users.rows| && users.rows[i].id == id ==>
      users.rows[i].data.email == d.email && users.rows[i].data.username == d.username
    modifies users`rows
    ensures TableOk(users)
    ensures users.rows == SetData(old(users.rows), id, d)
  {
    KeysKept(users.rows, SetData(users.rows, id, d));
    users.Save(id, d);
  }

  /** `User.findOne(filter)` / `User.findById(id)`: the first stored user that matches. */
  function FindOne(rows: seq<User>, select: User -> bool): (r: Option<User>)
    ensures r.None? <==> forall i :: 0 <= i < |rows| ==> !select(rows[i])
    ensures r.Some? ==> r.value in rows && select(r.value)
  {
    match FirstMatch(rows, select)
    case None => None
    case Some(k) => Some(rows[k])
  }

  function EmailIs(email: string): User -> bool {
    (u: User) => u.data.email == email
  }

  function PhoneIs(phone: string): User -> bool {
    (u: User) => u.data.phone == Some(phone)
  }

  function UsernameIs(username: string): User -> bool {
    (u: User) => u.data.username == Some(username)
  }

  /** The user a contact belongs to: by `email` for the e-mail kind, by `phone` otherwise. */
  function ContactIs(kind: string, contact: string): User -> bool {
    if kind == "email" then EmailIs(contact) else PhoneIs(contact)
  }

  /** The `user` object and `token` of the e-mail sign-up and login replies; the token is the id's text. */
  datatype Session = Session(
    id: Id, name: string, email: string, username: Option<string>, avatar: Option<string>,
    phone: Option<string>, token: string)

  /** The reply for a user; the login reply also shows the phone number. */
  function SessionOf(u: User, withPhone: bool): (s: Session)
    ensures s.id == u.id && ParseId(s.token) == Some(u.id)
    ensures s.email == u.data.email && s.name == u.data.name && s.username == u.data.username
    ensures s.phone == if withPhone then u.data.phone else None
    ensures s.avatar == u.data.avatar
  {
    ParseIdText(u.id);
    Session(u.id, u.data.name, u.data.email, u.data.username, u.data.avatar,
            if withPhone then u.data.phone else None, IdText(u.id))
  }

  /** `toObject()` followed by `delete passwordHash`: everything but the hash. */
  function Public(u: User): (p: User)
    ensures p.data.passwordHash.None?
    ensures p.(data := p.data.(passwordHash := u.data.passwordHash)) == u
  {
    u.(data := u.data.(passwordHash := None))
  }

  /** The hash removed, a user keeps its identity and every other field. */
  lemma PublicKeepsOtherFields(u: User)
    ensures Public(u).id == u.id && Public(u).createdAt == u.createdAt
    ensures Public(u).data.email == u.data.email && Public(u).data.name == u.data.name
    ensures Public(Public(u)) == Public(u)
  {
  }
}
