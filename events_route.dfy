/**
 * `/api/events`: lists the newest events, each with the photo of its most
 * voted venue (GET), and creates an event with the voting defaults of its
 * type, recording a signed-in creator as its host (POST).
 */
module EventsRoute {
  import opened Wrappers
  import opened Query
  import opened Collections
  import UserModel

  // ---------------------------------------------------------------- documents

  datatype Participant = Participant(userId: string, role: string, joinedAt: int)

  datatype EventData = EventData(
    hostId: string,
    kind: string,
    title: string,
    description: Option<string>,
    dateTimeStart: int,
    city: Option<string>,
    area: Option<string>,
    status: string,
    votingMode: string,
    votingCategories: seq<string>,
    quickPollEnabled: bool,
    allowAnonymousVoting: bool,
    createdBy: Option<string>,
    participants: seq<Participant>)

  type Event = Doc<EventData>

  predicate EventKind(kind: string) {
    kind == "restaurant" || kind == "house_party" || kind == "activity"
  }

  predicate VotingMode(mode: string) {
    mode == "standard" || mode == "quick_poll"
  }

  predicate VotingCategory(category: string) {
    category == "place" || category == "date_time" || category == "cuisine" || category == "location"
  }

  /** What the event schema demands of a stored event. */
  predicate SchemaOk(e: EventData) {
    && e.hostId != "" && EventKind(e.kind) && e.title != ""
    && VotingMode(e.votingMode)
    && (forall i :: 0 <= i < |e.votingCategories| ==> VotingCategory(e.votingCategories[i]))
    && (forall i :: 0 <= i < |e.participants| ==> e.participants[i].userId != "")
  }

  ghost predicate TableOk(events: Collection<EventData>)
    reads events
  {
    events.Valid() && forall i :: 0 <= i < |events.rows| ==> SchemaOk(events.rows[i].data)
  }

  /** The venue part of an option, as far as the cover image needs it. */
  datatype Venue = Venue(name: Option<string>, photoUrl: Option<string>)

  datatype OptionData = OptionData(eventId: string, labelText: string, votes: int, venue: Option<Venue>)

  type VoteOption = Doc<OptionData>

  // ---------------------------------------------------------------- GET

  const ListLimit: int := 50

  function Votes(o: VoteOption): int {
    o.data.votes
  }

  /** The filter `{ eventId }` on options. */
  function ForEvent(eventId: string): VoteOption -> bool {
    (o: VoteOption) => o.data.eventId == eventId
  }

  /** `opt.venue && opt.venue.photoUrl`. */
  predicate HasPhoto(o: VoteOption) {
    o.data.venue.Some? && Truthy(o.data.venue.value.photoUrl)
  }

  function WithPhoto(): VoteOption -> bool {
    o => HasPhoto(o)
  }

  /**
   * `topVenueImage`: among the event's options sorted by votes, the photo of
   * the first one that has a photo; `None` is `null`.
   */
  function TopVenueImage(options: seq<VoteOption>, eventId: string): (image: Option<string>)
    ensures image.None? <==> forall i :: 0 <= i < |options| ==> !(ForEvent(eventId)(options[i]) && HasPhoto(options[i]))
    ensures image.Some? ==> exists i :: 0 <= i < |options| && ForEvent(eventId)(options[i]) && HasPhoto(options[i])
                                          && options[i].data.venue.value.photoUrl == image
    ensures image.Some? ==> Truthy(image)
  {
    var ranked := SortDesc(Filter(options, ForEvent(eventId)), Votes);
    FilterMembers(options, ForEvent(eventId));
    match FirstMatch(ranked, WithPhoto())
    case None =>
      assert forall i :: 0 <= i < |options| ==> !(ForEvent(eventId)(options[i]) && HasPhoto(options[i])) by {
        forall i | 0 <= i < |options| && ForEvent(eventId)(options[i]) ensures !HasPhoto(options[i]) {
          assert options[i] in multiset(ranked);
        }
      }
      None
    case Some(k) =>
      assert ranked[k] in multiset(Filter(options, ForEvent(eventId)));
      ghost var j :| 0 <= j < |Filter(options, ForEvent(eventId))| && Filter(options, ForEvent(eventId))[j] == ranked[k];
      ranked[k].data.venue.value.photoUrl
  }

  /** No option of the event with a photo has more votes than the one whose photo is chosen. */
  lemma TopVenueImageMostVoted(options: seq<VoteOption>, eventId: string, i: nat)
    requires i < |options| && ForEvent(eventId)(options[i]) && HasPhoto(options[i])
    ensures exists j :: 0 <= j < |options| && ForEvent(eventId)(options[j]) && HasPhoto(options[j])
                        && options[j].data.venue.value.photoUrl == TopVenueImage(options, eventId)
                        && Votes(options[j]) >= Votes(options[i])
  {
    var matching := Filter(options, ForEvent(eventId));
    var ranked := SortDesc(matching, Votes);
    FilterMembers(options, ForEvent(eventId));
    assert options[i] in multiset(ranked);
    var m :| 0 <= m < |ranked| && ranked[m] == options[i];
    var k := FirstPhotoMostVoted(ranked, m);
    assert TopVenueImage(options, eventId) == ranked[k].data.venue.value.photoUrl;
    assert ranked[k] in multiset(matching);
    var p :| 0 <= p < |matching| && matching[p] == ranked[k];
    var j :| 0 <= j < |options| && options[j] == matching[p];
  }

  /** In options ranked by votes, the first one with a photo has at least the votes of any later one with a photo. */
  lemma FirstPhotoMostVoted(ranked: seq<VoteOption>, m: nat) returns (k: nat)
    requires SortedDesc(ranked, Votes) && m < |ranked| && HasPhoto(ranked[m])
    ensures FirstMatch(ranked, WithPhoto()) == Some(k)
    ensures k <= m && HasPhoto(ranked[k]) && Votes(ranked[k]) >= Votes(ranked[m])
  {
    assert WithPhoto()(ranked[m]);
    k := FirstMatch(ranked, WithPhoto()).value;
  }

  /** One entry of the GET reply: the event and the photo chosen for it. */
  datatype Listed = Listed(event: Event, topVenueImage: Option<string>)

  function All(): Event -> bool {
    e => true
  }

  /** The events of a GET reply, in reply order. */
  function EventsOf(r: seq<Listed>): seq<Event> {
    seq(|r|, i requires 0 <= i < |r| => r[i].event)
  }

  function Get(events: seq<Event>, options: seq<VoteOption>): (r: seq<Listed>)
    ensures |r| == Min(|events|, ListLimit)
    ensures forall i :: 0 <= i < |r| ==> r[i].event in events
    ensures forall i, j :: 0 <= i < j < |r| ==> r[i].event.createdAt >= r[j].event.createdAt
    ensures multiset(EventsOf(r)) <= multiset(events)
    ensures NoneNewerLeftOut(events, All(), CreatedAt, EventsOf(r))
    ensures forall i :: 0 <= i < |r| ==> r[i].topVenueImage == TopVenueImage(options, IdText(r[i].event.id))
  {
    var newest := Newest(events, All(), CreatedAt, ListLimit);
    NewestSpec(events, All(), CreatedAt, ListLimit);
    FilterAll(events, All());
    WithCovers(newest, options)
  }

  /** Each listed event paired with the cover of its own options, in the order given. */
  function WithCovers(newest: seq<Event>, options: seq<VoteOption>): (r: seq<Listed>)
    ensures |r| == |newest| && EventsOf(r) == newest
    ensures forall i :: 0 <= i < |r| ==> r[i].event == newest[i]
    ensures forall i :: 0 <= i < |r| ==> r[i].topVenueImage == TopVenueImage(options, IdText(r[i].event.id))
  {
    var r := seq(|newest|, i requires 0 <= i < |newest| => Listed(newest[i], TopVenueImage(options, IdText(newest[i].id))));
    assert EventsOf(r) == newest;
    r
  }

  // ---------------------------------------------------------------- POST

  /**
   * The JSON body. `dateTimeStart` is the time `new Date(body.dateTimeStart)`
   * denotes, `None` for an invalid date; `votingCategories` is `Some` when the
   * body holds an array (an array is truthy even when empty); the two flags
   * are `None` when absent.
   */
  datatype Body = Body(
    hostId: Option<string>, kind: Option<string>, title: Option<string>, description: Option<string>,
    dateTimeStart: Option<int>, city: Option<string>, area: Option<string>,
    votingMode: Option<string>, votingCategories: Option<seq<string>>,
    quickPollEnabled: Option<bool>, allowAnonymousVoting: Option<bool>,
    userId: Option<string>)

  /** The voting categories of an event type when the body names none. */
  function DefaultCategories(kind: Option<string>): (c: seq<string>)
    ensures kind == Some("house_party") ==> c == ["location", "date_time", "cuisine"]
    ensures kind != Some("house_party") ==> c == ["place", "date_time"]
    ensures forall i :: 0 <= i < |c| ==> VotingCategory(c[i])
  {
    if kind == Some("house_party") then ["location", "date_time", "cuisine"] else ["place", "date_time"]
  }

  /** The increment of `findByIdAndUpdate(userId, { $inc: { 'stats.eventsCreated': 1 }, lastActive })`. */
  function CountEvent(now: int): UserModel.UserData -> UserModel.UserData {
    (u: UserModel.UserData) =>
      u.(stats := u.stats.(eventsCreated := u.stats.eventsCreated + 1), lastActive := now)
  }

  /** The creator gains one created event and a new `lastActive`; nothing else about the user changes. */
  lemma CountEventSpec(u: UserModel.UserData, now: int)
    ensures CountEvent(now)(u).stats.eventsCreated == u.stats.eventsCreated + 1
    ensures CountEvent(now)(u).stats.eventsJoined == u.stats.eventsJoined
    ensures CountEvent(now)(u).stats.totalVotes == u.stats.totalVotes
    ensures CountEvent(now)(u).lastActive == now
    ensures CountEvent(now)(u).(stats := u.stats, lastActive := u.lastActive) == u
  {
  }

  /**
   * The server's default answer when the handler throws: the handler catches
   * nothing, so a bad user id or a document `Event.create` refuses ends here.
   */
  const Internal: string := "Internal Server Error"

  /**
   * The document the handler builds: the body's fields with the voting
   * defaults, and, with a `userId`, the creator as the single host participant.
   * `None` when `new Date(...)` gave an invalid date, which `Event.create` refuses.
   */
  method BuildEvent(body: Body, now: int) returns (data: Option<EventData>)
    ensures body.dateTimeStart.None? <==> data.None?
    ensures data.Some? ==>
      var e := data.value;
      && e.hostId == body.hostId.GetOr("") && e.kind == body.kind.GetOr("") && e.title == body.title.GetOr("")
      && e.description == body.description && e.dateTimeStart == body.dateTimeStart.value
      && e.city == body.city && e.area == body.area && e.status == "voting"
      && e.votingMode == (if Truthy(body.votingMode) then body.votingMode.value else "standard")
      && e.votingCategories == (if body.votingCategories.Some? then body.votingCategories.value
                                else DefaultCategories(body.kind))
      && e.quickPollEnabled == (body.quickPollEnabled == Some(true))
      && e.allowAnonymousVoting == (body.allowAnonymousVoting != Some(false))
      && (Truthy(body.userId) ==>
            e.createdBy == body.userId && e.participants == [Participant(body.userId.value, "host", now)])
      && (!Truthy(body.userId) ==> e.createdBy.None? && e.participants == [])
  {
    var votingCategories := ["place", "date_time"];
    if body.kind == Some("house_party") {
      votingCategories := ["location", "date_time", "cuisine"];
    }
    if body.dateTimeStart.None? {
      return None;
    }
    var e := EventData(
      body.hostId.GetOr(""), body.kind.GetOr(""), body.title.GetOr(""), body.description,
      body.dateTimeStart.value, body.city, body.area, "voting",
      if Truthy(body.votingMode) then body.votingMode.value else "standard",
      if body.votingCategories.Some? then body.votingCategories.value else votingCategories,
      body.quickPollEnabled == Some(true),
      body.allowAnonymousVoting != Some(false),
      None, []);
    if Truthy(body.userId) {
      e := e.(createdBy := body.userId, participants := [Participant(body.userId.value, "host", now)]);
    }
    data := Some(e);
  }

  /** A signed-in creator is the event's only participant, as its host. */
  lemma HostIsOnlyParticipant(e: EventData, userId: string, now: int)
    requires e.participants == [Participant(userId, "host", now)]
    ensures |e.participants| == 1
    ensures forall i :: 0 <= i < |e.participants| ==> e.participants[i].role == "host" && e.participants[i].userId == userId
  {
  }

  method Post(events: Collection<EventData>, users: Collection<UserModel.UserData>, body: Body, now: int)
    returns (res: Response<Event>)
    requires TableOk(events) && UserModel.TableOk(users)
    modifies events, users
    ensures TableOk(events) && UserModel.TableOk(users)
    ensures Truthy(body.userId) && ParseId(body.userId.value).None? ==>
      res == Error(500, Internal) && events.rows == old(events.rows) && users.rows == old(users.rows)
    ensures Truthy(body.userId) && ParseId(body.userId.value).Some? ==>
      users.rows == UpdateWhere(old(users.rows), HasId(ParseId(body.userId.value).value), CountEvent(now))
    ensures !Truthy(body.userId) ==> users.rows == old(users.rows)
    ensures !Truthy(body.userId) || ParseId(body.userId.value).Some? ==>
      && (body.dateTimeStart.None? ==> res == Error(500, Internal) && events.rows == old(events.rows))
      && (body.dateTimeStart.Some? ==>
            exists e: EventData ::
              && e.votingCategories == (if body.votingCategories.Some? then body.votingCategories.value
                                        else DefaultCategories(body.kind))
              && e.participants == (if Truthy(body.userId) then [Participant(body.userId.value, "host", now)] else [])
              && e.hostId == body.hostId.GetOr("") && e.kind == body.kind.GetOr("")
              && (!SchemaOk(e) ==> res == Error(500, Internal) && events.rows == old(events.rows))
              && (SchemaOk(e) ==>
                    && |events.rows| == |old(events.rows)| + 1
                    && events.rows[..|old(events.rows)|] == old(events.rows)
                    && events.rows[|old(events.rows)|].data == e
                    && events.rows[|old(events.rows)|].createdAt == now
                    && res == Ok(201, events.rows[|old(events.rows)|])))
  {
    if Truthy(body.userId) {
      var id := ParseId(body.userId.value);
      if id.None? {
        return Error(500, Internal);
      }
      UserModel.KeysKept(users.rows, UpdateWhere(users.rows, HasId(id.value), CountEvent(now)));
      users.UpdateMany(HasId(id.value), CountEvent(now));
    }
    var data := BuildEvent(body, now);
    if data.None? {
      return Error(500, Internal);
    }
    var e := data.value;
    if !SchemaOk(e) {
      return Error(500, Internal);
    }
    ghost var before := events.rows;
    var created := events.Create(e, now);
    assert events.rows[..|before|] == before;
    assert forall i :: 0 <= i < |events.rows| ==> SchemaOk(events.rows[i].data) by {
      forall i | 0 <= i < |events.rows| ensures SchemaOk(events.rows[i].data) {
        if i < |before| {
          assert events.rows[i] == before[i];
        }
      }
    }
    res := Ok(201, created);
  }
}
