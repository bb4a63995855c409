/**
 * The decisions of `lib/services/pushNotifications.ts` around an Expo push:
 * which tokens are sent to, what payload goes out, and which title an event
 * activity gets. The HTTP post itself is a parameter.
 */
module PushNotifications {
  import opened Wrappers
  import opened JsStrings
  import opened Query

  const TokenPrefix: string := "ExponentPushToken["

  /** The `data` object of a payload; a key may hold `undefined`. */
  type Data = map<string, Option<string>>

  datatype Payload = Payload(to: string, sound: string, title: string, body: string, data: Data, badge: nat)

  /** A token the service sends to: non-empty and of Expo's format. */
  predicate ValidToken(token: string) {
    token != "" && StartsWith(token, TokenPrefix)
  }

  /** The prefix check alone already rules out the empty token. */
  lemma ValidTokenIsPrefixed(token: string)
    ensures ValidToken(token) <==> StartsWith(token, TokenPrefix)
  {
    if StartsWith(token, TokenPrefix) {
      assert |token| >= |TokenPrefix| > 0;
    }
  }

  /** The payload `sendPushNotification` posts, or nothing for a token it refuses. */
  function Prepare(token: string, title: string, message: string, data: Option<Data>): (p: Option<Payload>)
    ensures p.Some? <==> ValidToken(token)
    ensures p.Some? ==> p.value.to == token && p.value.title == title && p.value.body == message
    ensures p.Some? ==> p.value.sound == "default" && p.value.badge == 1
    ensures p.Some? ==> p.value.data == (if data.Some? then data.value else map[])
  {
    if token == "" then None
    else if !StartsWith(token, TokenPrefix) then None
    else Some(Payload(token, "default", title, message, data.GetOr(map[]), 1))
  }

  /**
   * `sendPushNotification`: `post` stands for the request to Expo, `None`
   * for one that throws. Every failure ends as `null` (`None`).
   */
  function Send<R>(token: string, title: string, message: string, data: Option<Data>, post: Payload -> Option<R>): (r: Option<R>)
    ensures !ValidToken(token) ==> r.None?
    ensures ValidToken(token) ==> r == post(Payload(token, "default", title, message, data.GetOr(map[]), 1))
  {
    match Prepare(token, title, message, data)
    case None => None
    case Some(payload) => post(payload)
  }

  /** Selects the tokens the bulk send keeps. */
  function IsPushToken(): string -> bool {
    t => ValidToken(t)
  }

  /** The tokens `sendBulkPushNotifications` sends to, in their given order. */
  function ValidTokens(tokens: seq<string>): (valid: seq<string>)
    ensures |valid| <= |tokens|
  {
    Filter(tokens, IsPushToken())
  }

  /** The bulk filter keeps exactly the valid tokens. */
  lemma ValidTokensSpec(tokens: seq<string>)
    ensures forall i :: 0 <= i < |ValidTokens(tokens)| ==> ValidToken(ValidTokens(tokens)[i]) && ValidTokens(tokens)[i] in tokens
    ensures forall i :: 0 <= i < |tokens| && ValidToken(tokens[i]) ==> tokens[i] in ValidTokens(tokens)
    ensures (forall i :: 0 <= i < |tokens| ==> ValidToken(tokens[i])) ==> ValidTokens(tokens) == tokens
  {
    FilterMembers(tokens, IsPushToken());
    if forall i :: 0 <= i < |tokens| ==> ValidToken(tokens[i]) {
      FilterAll(tokens, IsPushToken());
    }
  }

  /**
   * The bulk filter keeps the order of the tokens: the valid tokens before a
   * token come before it, those after it after it.
   */
  lemma ValidTokensInOrder(a: seq<string>, t: string, b: seq<string>)
    ensures ValidTokens(a + [t] + b) == ValidTokens(a) + (if ValidToken(t) then [t] else []) + ValidTokens(b)
  {
    FilterAppend(a + [t], b, IsPushToken());
    FilterSnoc(a, t, IsPushToken());
  }

  /** Filtering a token list twice keeps what filtering once kept. */
  lemma ValidTokensIdempotent(tokens: seq<string>)
    ensures ValidTokens(ValidTokens(tokens)) == ValidTokens(tokens)
  {
    ValidTokensSpec(tokens);
    ValidTokensSpec(ValidTokens(tokens));
  }

  /**
   * `sendBulkPushNotifications`: one settled result per valid token, in order,
   * each the fulfilled value of its send (the send catches its own errors).
   */
  function SendBulk<R>(tokens: seq<string>, title: string, message: string, data: Option<Data>, post: Payload -> Option<R>): (r: seq<Option<R>>)
    ensures ValidTokens(tokens) == [] ==> r == []
    ensures |r| == |ValidTokens(tokens)|
    ensures forall i :: 0 <= i < |r| ==>
      r[i] == post(Payload(ValidTokens(tokens)[i], "default", title, message, data.GetOr(map[]), 1))
  {
    var valid := ValidTokens(tokens);
    ValidTokensSpec(tokens);
    if |valid| == 0 then []
    else seq(|valid|, i requires 0 <= i < |valid| => Send(valid[i], title, message, data, post))
  }

  const UserJoinedTitle: string := "\U{1F389} New participant!"
  const OptionAddedTitle: string := "\U{1F4CD} New option added"
  const MessageTitle: string := "\U{1F4AC} New message"
  const VoteTitle: string := "\U{1F5F3}\U{FE0F} Someone voted"
  const FallbackTitle: string := "VYBE Notification"

  /** The title of an event activity: one of four fixed titles, or the fallback. */
  function ActivityTitle(kind: string): (title: string)
    ensures kind == "user_joined" ==> title == UserJoinedTitle
    ensures kind == "option_added" ==> title == OptionAddedTitle
    ensures kind == "message" ==> title == MessageTitle
    ensures kind == "vote" ==> title == VoteTitle
    ensures kind !in {"user_joined", "option_added", "message", "vote"} ==> title == FallbackTitle
  {
    var titles := map["user_joined" := UserJoinedTitle, "option_added" := OptionAddedTitle,
                      "message" := MessageTitle, "vote" := VoteTitle];
    if kind in titles && titles[kind] != "" then titles[kind] else FallbackTitle
  }

  /** The title tells the activity: different known kinds get different titles, none of them the fallback. */
  lemma ActivityTitleIdentifies(k1: string, k2: string)
    requires k1 in {"user_joined", "option_added", "message", "vote"}
    requires ActivityTitle(k1) == ActivityTitle(k2)
    ensures k1 == k2
  {
    assert UserJoinedTitle[0] != OptionAddedTitle[0] && UserJoinedTitle[0] != MessageTitle[0];
    assert UserJoinedTitle[0] != VoteTitle[0] && UserJoinedTitle[0] != FallbackTitle[0];
    assert OptionAddedTitle[0] != MessageTitle[0] && OptionAddedTitle[0] != VoteTitle[0];
    assert OptionAddedTitle[0] != FallbackTitle[0];
    assert MessageTitle[0] != VoteTitle[0] && MessageTitle[0] != FallbackTitle[0];
    assert VoteTitle[0] != FallbackTitle[0];
  }

  /** The `data` of an event notification. */
  function ActivityData(kind: string, eventTitle: string, eventId: Option<string>): Data {
    map["type" := Some(kind), "eventId" := eventId, "eventTitle" := Some(eventTitle)]
  }

  /** `sendEventNotification`: a push with the activity's title, the details as body, and the event in `data`. */
  function SendEvent<R>(token: string, kind: string, eventTitle: string, details: string, eventId: Option<string>,
                        post: Payload -> Option<R>): (r: Option<R>)
    ensures !ValidToken(token) ==> r.None?
    ensures ValidToken(token) ==>
      r == post(Payload(token, "default", ActivityTitle(kind), details, ActivityData(kind, eventTitle, eventId), 1))
  {
    Send(token, ActivityTitle(kind), details, Some(ActivityData(kind, eventTitle, eventId)), post)
  }
}
