/**
 * `/api/notifications`: list a user's notifications (GET), create one
 * (POST), mark them read (PATCH) and delete them (DELETE).
 */
module NotificationsRoute {
  import opened Wrappers
  import opened JsStrings
  import opened Query
  import opened Collections

  datatype NotificationData = NotificationData(
    userId: string,
    kind: string,
    title: string,
    message: string,
    eventId: Option<string>,
    optionId: Option<string>,
    fromUserId: Option<string>,
    actionUrl: Option<string>,
    read: bool,
    readAt: Option<int>)

  type Notification = Doc<NotificationData>

  /** The schema's enumeration for `type`. */
  predicate ValidKind(kind: string) {
    kind in ["user_joined", "event_update", "option_added", "event_message",
             "voting_reminder", "event_reminder", "event_invite", "event_finalized"]
  }

  /** A notification has a read time exactly when it is read. */
  predicate Stamped(n: NotificationData) {
    n.read <==> n.readAt.Some?
  }

  ghost predicate TableOk(c: Collection<NotificationData>)
    reads c
  {
    c.Valid() && forall i :: 0 <= i < |c.rows| ==> Stamped(c.rows[i].data)
  }

  // ---------------------------------------------------------------- GET

  datatype Params = Params(userId: Option<string>, unreadOnly: Option<string>, limit: Option<string>)

  const DefaultLimit: string := "50"

  /** The filter `{ userId }`, with `read: false` added for `unreadOnly=true`. */
  function Listed(userId: string, unreadOnly: bool): Notification -> bool {
    (n: Notification) => n.data.userId == userId && (unreadOnly ==> !n.data.read)
  }

  /** `parseInt(limit || '50')`; a `NaN` limit is taken as no limit. */
  function LimitOf(limit: Option<string>): int {
    match ParseInt(if Truthy(limit) then limit.value else DefaultLimit)
    case None => 0
    case Some(n) => n
  }

  /** Without a `limit` parameter at most fifty notifications are listed. */
  lemma DefaultLimitIsFifty()
    ensures LimitOf(None) == 50
  {
    assert Decimal(50) == DefaultLimit;
    ParseIntDecimal(50, "");
    assert Decimal(50) + "" == DefaultLimit;
  }

  function Get(rows: seq<Notification>, p: Params): (r: Response<seq<Notification>>)
    ensures !Truthy(p.userId) ==> r == Error(400, "User ID is required")
    ensures Truthy(p.userId) ==>
      var keep := Listed(p.userId.value, p.unreadOnly == Some("true"));
      var n := LimitOf(p.limit);
      && r.Ok? && r.status == 200
      && (forall i :: 0 <= i < |r.body| ==> r.body[i] in rows && keep(r.body[i]))
      && (forall i, j :: 0 <= i < j < |r.body| ==> r.body[i].createdAt >= r.body[j].createdAt)
      && |r.body| == (if n == 0 then |Filter(rows, keep)| else Min(|Filter(rows, keep)|, Abs(n)))
      && multiset(r.body) <= multiset(rows)
      && NoneNewerLeftOut(rows, keep, CreatedAt, r.body)
  {
    if !Truthy(p.userId) then Error(400, "User ID is required")
    else
      var keep := Listed(p.userId.value, p.unreadOnly == Some("true"));
      NewestSpec(rows, keep, CreatedAt, LimitOf(p.limit));
      Ok(200, Newest(rows, keep, CreatedAt, LimitOf(p.limit)))
  }

  // ---------------------------------------------------------------- POST

  datatype NewNotification = NewNotification(
    userId: Option<string>, kind: Option<string>, title: Option<string>, message: Option<string>,
    eventId: Option<string>, optionId: Option<string>, fromUserId: Option<string>, actionUrl: Option<string>)

  /** What `Notification.create` reports for a `type` outside the enumeration. */
  const CreateRejected: string := "Notification validation failed"

  method Post(c: Collection<NotificationData>, b: NewNotification, now: int) returns (res: Response<Notification>)
    requires TableOk(c)
    modifies c
    ensures TableOk(c)
    ensures !(Truthy(b.userId) && Truthy(b.kind) && Truthy(b.title) && Truthy(b.message)) ==>
      res == Error(400, "User ID, type, title, and message are required") && c.rows == old(c.rows)
    ensures Truthy(b.userId) && Truthy(b.kind) && Truthy(b.title) && Truthy(b.message) ==>
      && (!ValidKind(b.kind.value) ==> res == Error(500, CreateRejected) && c.rows == old(c.rows))
      && (ValidKind(b.kind.value) ==>
            var n := |old(c.rows)|;
            && |c.rows| == n + 1 && c.rows[..n] == old(c.rows)
            && c.rows[n].createdAt == now
            && c.rows[n].data == NotificationData(b.userId.value, b.kind.value, b.title.value, b.message.value,
                 b.eventId, b.optionId, b.fromUserId, b.actionUrl, false, None)
            && res == Ok(201, c.rows[n]))
  {
    if !(Truthy(b.userId) && Truthy(b.kind) && Truthy(b.title) && Truthy(b.message)) {
      return Error(400, "User ID, type, title, and message are required");
    }
    if !ValidKind(b.kind.value) {
      return Error(500, CreateRejected);
    }
    var data := NotificationData(b.userId.value, b.kind.value, b.title.value, b.message.value,
                                 b.eventId, b.optionId, b.fromUserId, b.actionUrl, false, None);
    ghost var before := c.rows;
    var n := c.Create(data, now);
    assert c.rows[..|before|] == before;
    res := Ok(201, n);
  }

  // ---------------------------------------------------------------- PATCH

  /** The body; `notificationIds` is `None` when absent or not an array, `markAllRead` is its truthiness. */
  datatype Patch = Patch(notificationIds: Option<seq<string>>, userId: Option<string>, markAllRead: bool)

  /** The update `{ read: true, readAt: now }`. */
  function MarkRead(now: int): NotificationData -> NotificationData {
    (n: NotificationData) => n.(read := true, readAt := Some(now))
  }

  /** The filter `{ userId, read: false }`. */
  function UnreadOf(userId: string): Notification -> bool {
    (n: Notification) => n.data.userId == userId && !n.data.read
  }

  /** The filter `{ _id: { $in: ids } }`. */
  function IdIn(ids: seq<Id>): Notification -> bool {
    (n: Notification) => n.id in ids
  }

  /** Marking read keeps read flags and read times together. */
  lemma MarkReadKeepsStamped(rows: seq<Notification>, select: Notification -> bool, now: int)
    requires forall i :: 0 <= i < |rows| ==> Stamped(rows[i].data)
    ensures var r := UpdateWhere(rows, select, MarkRead(now));
      && (forall i :: 0 <= i < |r| ==> Stamped(r[i].data))
      && (forall i :: 0 <= i < |r| ==> r[i].id == rows[i].id)
  {
  }

  method Update(c: Collection<NotificationData>, b: Patch, now: int) returns (res: Response<string>)
    requires TableOk(c)
    modifies c
    ensures TableOk(c)
    ensures b.markAllRead && Truthy(b.userId) ==>
      && c.rows == UpdateWhere(old(c.rows), UnreadOf(b.userId.value), MarkRead(now))
      && res == Ok(200, "All notifications marked as read")
    ensures !(b.markAllRead && Truthy(b.userId)) && b.notificationIds.Some? ==>
      var ids := ParseIds(b.notificationIds.value);
      && (ids.None? ==> res == Error(500, CastError) && c.rows == old(c.rows))
      && (ids.Some? ==>
            && c.rows == UpdateWhere(old(c.rows), IdIn(ids.value), MarkRead(now))
            && res == Ok(200, "Notifications marked as read"))
    ensures !(b.markAllRead && Truthy(b.userId)) && b.notificationIds.None? ==>
      res == Error(400, "Invalid request") && c.rows == old(c.rows)
  {
    if b.markAllRead && Truthy(b.userId) {
      MarkReadKeepsStamped(c.rows, UnreadOf(b.userId.value), now);
      c.UpdateMany(UnreadOf(b.userId.value), MarkRead(now));
      return Ok(200, "All notifications marked as read");
    } else if b.notificationIds.Some? {
      var ids := ParseIds(b.notificationIds.value);
      if ids.None? {
        return Error(500, CastError);
      }
      MarkReadKeepsStamped(c.rows, IdIn(ids.value), now);
      c.UpdateMany(IdIn(ids.value), MarkRead(now));
      return Ok(200, "Notifications marked as read");
    }
    res := Error(400, "Invalid request");
  }

  /**
   * After "mark all read" the user has no unread notification left, each of
   * the user's notifications read before keeps its read time, and every other
   * user's notifications are untouched.
   */
  lemma MarkAllReadSpec(rows: seq<Notification>, userId: string, now: int)
    ensures var r := UpdateWhere(rows, UnreadOf(userId), MarkRead(now));
      && |r| == |rows|
      && (forall i :: 0 <= i < |r| && r[i].data.userId == userId ==> r[i].data.read)
      && (forall i :: 0 <= i < |r| && rows[i].data.userId == userId && rows[i].data.read ==> r[i] == rows[i])
      && (forall i :: 0 <= i < |r| && rows[i].data.userId != userId ==> r[i] == rows[i])
      && (forall i :: 0 <= i < |r| && rows[i].data.userId == userId && !rows[i].data.read ==> r[i].data.readAt == Some(now))
  {
  }

  /**
   * Marking by id reads exactly the listed notifications, whoever owns them;
   * one read before gets a new read time.
   */
  lemma MarkIdsSpec(rows: seq<Notification>, ids: seq<Id>, now: int)
    ensures var r := UpdateWhere(rows, IdIn(ids), MarkRead(now));
      && (forall i :: 0 <= i < |r| && rows[i].id in ids ==> r[i].data.read && r[i].data.readAt == Some(now))
      && (forall i :: 0 <= i < |r| && rows[i].id !in ids ==> r[i] == rows[i])
  {
  }

  // ---------------------------------------------------------------- DELETE

  datatype DeleteParams = DeleteParams(id: Option<string>, userId: Option<string>, deleteAll: Option<string>)

  /** The filter `{ userId }`. */
  function OwnedBy(userId: string): Notification -> bool {
    (n: Notification) => n.data.userId == userId
  }

  method Delete(c: Collection<NotificationData>, p: DeleteParams) returns (res: Response<string>)
    requires TableOk(c)
    modifies c
    ensures TableOk(c)
    ensures p.deleteAll == Some("true") && Truthy(p.userId) ==>
      c.rows == Reject(old(c.rows), OwnedBy(p.userId.value)) && res == Ok(200, "All notifications deleted")
    ensures !(p.deleteAll == Some("true") && Truthy(p.userId)) && Truthy(p.id) ==>
      && (ParseId(p.id.value).None? ==> res == Error(500, CastError) && c.rows == old(c.rows))
      && (ParseId(p.id.value).Some? ==>
            c.rows == Reject(old(c.rows), HasId(ParseId(p.id.value).value)) && res == Ok(200, "Notification deleted"))
    ensures !(p.deleteAll == Some("true") && Truthy(p.userId)) && !Truthy(p.id) ==>
      res == Error(400, "Invalid request") && c.rows == old(c.rows)
  {
    if p.deleteAll == Some("true") && Truthy(p.userId) {
      RejectMembers(c.rows, OwnedBy(p.userId.value));
      c.DeleteWhere(OwnedBy(p.userId.value));
      return Ok(200, "All notifications deleted");
    } else if Truthy(p.id) {
      var id := ParseId(p.id.value);
      if id.None? {
        return Error(500, CastError);
      }
      RejectMembers(c.rows, HasId(id.value));
      c.DeleteById(id.value);
      return Ok(200, "Notification deleted");
    }
    res := Error(400, "Invalid request");
  }
}
