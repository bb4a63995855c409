/**
 * `POST /api/invites/send-sms`: texts an event invitation to every contact
 * that has a phone number and reports which sends went through and which
 * threw, without letting one failure stop the others.
 */
module SendSms {
  import opened Wrappers

  /** An element of the `contacts` array: an object, or `null` (on which reading `phone` throws). */
  datatype Entry = Contact(name: Option<string>, phone: Option<string>) | Null

  datatype Body = Body(
    eventId: Option<string>, eventTitle: Option<string>, eventLink: Option<string>,
    contacts: Option<seq<Entry>>)

  /** One element of `results`; `success` and `sid` read fields of a boolean and are always undefined. */
  datatype Sent = Sent(contact: Option<string>, phone: string)

  /** One element of `errors`. */
  datatype Failed = Failed(contact: Option<string>, phone: string, error: string)

  datatype Report = Report(sent: nat, failed: nat, results: seq<Sent>, errors: seq<Failed>)

  /** A message handed to `sendSMS`. */
  datatype Text = Text(to: string, message: string)

  const Required: string := "Event ID, title, link, and contacts are required"

  /** What reading `contact.phone` on `null` throws. */
  const NullContact: string := "Cannot read properties of null (reading 'phone')"

  const InvitePrefix: string := "\U{1F389} You're invited to "

  const InviteMiddle: string := "!\n\nJoin the vibe: "

  /** The invitation text: the title and the link can be read back from it. */
  function Invitation(title: string, link: string): (m: string)
    ensures |m| == |InvitePrefix| + |title| + |InviteMiddle| + |link|
    ensures m[..|InvitePrefix|] == InvitePrefix
    ensures m[|InvitePrefix|..|InvitePrefix| + |title|] == title
    ensures m[|InvitePrefix| + |title|..|m| - |link|] == InviteMiddle
    ensures m[|m| - |link|..] == link
  {
    InvitePrefix + title + InviteMiddle + link
  }

  /** The entry is a contact with a truthy phone, that is, one the loop texts. */
  predicate Reachable(e: Entry) {
    e.Contact? && Truthy(e.phone)
  }

  /** The `results` after the first `n` entries; `fails(i)` is the message `sendSMS` throws for entry `i`, if it throws. */
  function ResultsUpTo(cs: seq<Entry>, fails: nat -> Option<string>, n: nat): seq<Sent>
    requires n <= |cs|
  {
    if n == 0 then []
    else
      var e := cs[n - 1];
      ResultsUpTo(cs, fails, n - 1) + if Reachable(e) && fails(n - 1).None? then [Sent(e.name, e.phone.value)] else []
  }

  /** The `errors` after the first `n` entries. */
  function ErrorsUpTo(cs: seq<Entry>, fails: nat -> Option<string>, n: nat): seq<Failed>
    requires n <= |cs|
  {
    if n == 0 then []
    else
      var e := cs[n - 1];
      ErrorsUpTo(cs, fails, n - 1) + if Reachable(e) && fails(n - 1).Some? then [Failed(e.name, e.phone.value, fails(n - 1).value)] else []
  }

  /** The number of reachable contacts among the first `n` entries. */
  function Reachables(cs: seq<Entry>, n: nat): nat
    requires n <= |cs|
  {
    if n == 0 then 0 else Reachables(cs, n - 1) + (if Reachable(cs[n - 1]) then 1 else 0)
  }

  /** The texts handed to `sendSMS` for the first `n` entries. */
  function TextsUpTo(cs: seq<Entry>, title: string, link: string, n: nat): seq<Text>
    requires n <= |cs|
  {
    if n == 0 then []
    else
      var e := cs[n - 1];
      TextsUpTo(cs, title, link, n - 1) + if Reachable(e) then [Text(e.phone.value, Invitation(title, link))] else []
  }

  /** Every reachable contact lands in exactly one of `results` and `errors`. */
  lemma {:induction false} EveryReachableReported(cs: seq<Entry>, fails: nat -> Option<string>, title: string, link: string, n: nat)
    requires n <= |cs|
    ensures |ResultsUpTo(cs, fails, n)| + |ErrorsUpTo(cs, fails, n)| == Reachables(cs, n)
    ensures |TextsUpTo(cs, title, link, n)| == Reachables(cs, n)
  {
    if n > 0 {
      EveryReachableReported(cs, fails, title, link, n - 1);
    }
  }

  /** Only reachable contacts are reported: a contact without a phone is in neither list. */
  lemma {:induction false} OnlyReachableReported(cs: seq<Entry>, fails: nat -> Option<string>, n: nat)
    requires n <= |cs|
    ensures forall r :: r in ResultsUpTo(cs, fails, n) ==>
      exists i :: 0 <= i < n && Reachable(cs[i]) && fails(i).None? && r == Sent(cs[i].name, cs[i].phone.value)
    ensures forall e :: e in ErrorsUpTo(cs, fails, n) ==>
      exists i :: 0 <= i < n && Reachable(cs[i]) && fails(i).Some? && e == Failed(cs[i].name, cs[i].phone.value, fails(i).value)
  {
    if n > 0 {
      OnlyReachableReported(cs, fails, n - 1);
    }
  }

  /** A failure does not stop the loop: every reachable contact that does not fail is in `results`. */
  lemma {:induction false} LaterContactsStillSent(cs: seq<Entry>, fails: nat -> Option<string>, n: nat, i: nat)
    requires i < n <= |cs| && Reachable(cs[i]) && fails(i).None?
    ensures Sent(cs[i].name, cs[i].phone.value) in ResultsUpTo(cs, fails, n)
  {
    if i < n - 1 {
      LaterContactsStillSent(cs, fails, n - 1, i);
    }
  }

  /**
   * The handler. `fails(i)` tells whether `sendSMS` throws for entry `i`,
   * and with which message; `texts` are the messages handed to it.
   */
  method Post(body: Body, fails: nat -> Option<string>) returns (res: Response<Report>, texts: seq<Text>)
    ensures !Truthy(body.eventId) || !Truthy(body.eventTitle) || !Truthy(body.eventLink) || body.contacts.None? ==>
      res == Error(400, Required) && texts == []
    ensures Truthy(body.eventId) && Truthy(body.eventTitle) && Truthy(body.eventLink) && body.contacts.Some? ==>
      var cs, title, link := body.contacts.value, body.eventTitle.value, body.eventLink.value;
      (forall i :: 0 <= i < |cs| ==> !cs[i].Null?) ==>
           && texts == TextsUpTo(cs, title, link, |cs|)
           && res.Ok? && res.status == 200
           && res.body.results == ResultsUpTo(cs, fails, |cs|) && res.body.errors == ErrorsUpTo(cs, fails, |cs|)
           && res.body.sent == |res.body.results| && res.body.failed == |res.body.errors|
    ensures Truthy(body.eventId) && Truthy(body.eventTitle) && Truthy(body.eventLink) && body.contacts.Some? ==>
      var cs, title, link := body.contacts.value, body.eventTitle.value, body.eventLink.value;
      forall k :: 0 <= k < |cs| && cs[k].Null? && (forall i :: 0 <= i < k ==> !cs[i].Null?) ==>
        res == Error(500, NullContact) && texts == TextsUpTo(cs, title, link, k)
  {
    if !Truthy(body.eventId) || !Truthy(body.eventTitle) || !Truthy(body.eventLink) || body.contacts.None? {
      return Error(400, Required), [];
    }
    var cs, title, link := body.contacts.value, body.eventTitle.value, body.eventLink.value;
    var results: seq<Sent> := [];
    var errors: seq<Failed> := [];
    texts := [];
    var i := 0;
    while i < |cs|
      invariant 0 <= i <= |cs|
      invariant forall j :: 0 <= j < i ==> !cs[j].Null?
      invariant results == ResultsUpTo(cs, fails, i)
      invariant errors == ErrorsUpTo(cs, fails, i)
      invariant texts == TextsUpTo(cs, title, link, i)
    {
      var contact := cs[i];
      if contact.Null? {
        return Error(500, NullContact), texts;
      }
      if Truthy(contact.phone) {
        var message := Invitation(title, link);
        texts := texts + [Text(contact.phone.value, message)];
        match fails(i)
        case None =>
          results := results + [Sent(contact.name, contact.phone.value)];
        case Some(error) =>
          errors := errors + [Failed(contact.name, contact.phone.value, error)];
      }
      i := i + 1;
    }
    res := Ok(200, Report(|results|, |errors|, results, errors));
  }
}
