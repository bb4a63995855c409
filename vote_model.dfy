/**
 * The vote document of `lib/services/models/Vote.ts`: its defaults, its
 * required fields, and the two partial unique indexes that allow one
 * standard-mode vote per event, category and voter (registered or guest)
 * while leaving quick-poll votes unconstrained.
 */
module VoteModel {
  import opened Wrappers
  import opened Collections

  datatype VoteData = VoteData(
    eventId: string,
    category: string,
    optionId: string,
    voterId: Option<string>,
    voterName: Option<string>,
    guestToken: Option<string>,
    isQuickPoll: bool,
    castAt: int)

  type Vote = Doc<VoteData>

  /** What a caller hands to `Vote.create`; absent fields are `None`. */
  datatype Input = Input(
    eventId: Option<string>, category: Option<string>, optionId: Option<string>,
    voterId: Option<string>, voterName: Option<string>, guestToken: Option<string>,
    isQuickPoll: Option<bool>, castAt: Option<int>)

  predicate Category(c: string) {
    c == "place" || c == "date_time" || c == "cuisine" || c == "location" || c == "general"
  }

  /** The document with the schema defaults filled in. */
  function WithDefaults(v: Input, now: int): (d: VoteData)
    ensures v.category.None? ==> d.category == "general"
    ensures v.isQuickPoll.None? ==> !d.isQuickPoll
    ensures v.castAt.None? ==> d.castAt == now
    ensures v.category.Some? ==> d.category == v.category.value
    ensures v.isQuickPoll.Some? ==> d.isQuickPoll == v.isQuickPoll.value
    ensures v.castAt.Some? ==> d.castAt == v.castAt.value
    ensures d.voterId == v.voterId && d.guestToken == v.guestToken && d.voterName == v.voterName
    ensures d.eventId == (if v.eventId.Some? then v.eventId.value else "")
    ensures d.optionId == (if v.optionId.Some? then v.optionId.value else "")
  {
    VoteData(v.eventId.GetOr(""), v.category.GetOr("general"), v.optionId.GetOr(""),
             v.voterId, v.voterName, v.guestToken, v.isQuickPoll.GetOr(false), v.castAt.GetOr(now))
  }

  /** Validation: the required strings are present and not empty, the category is one of the five. */
  predicate Valid(d: VoteData) {
    d.eventId != "" && d.optionId != "" && Category(d.category)
  }

  /** The partial filter of the first index: a string `voterId` on a standard-mode vote. */
  predicate VoterIndexed(d: VoteData) {
    d.voterId.Some? && !d.isQuickPoll
  }

  /** The partial filter of the second index: a string `guestToken` on a standard-mode vote. */
  predicate GuestIndexed(d: VoteData) {
    d.guestToken.Some? && !d.isQuickPoll
  }

  /** Two documents collide in one of the unique indexes. */
  predicate Clash(a: VoteData, b: VoteData) {
    && a.eventId == b.eventId && a.category == b.category && a.isQuickPoll == b.isQuickPoll
    && ((VoterIndexed(a) && VoterIndexed(b) && a.voterId == b.voterId)
        || (GuestIndexed(a) && GuestIndexed(b) && a.guestToken == b.guestToken))
  }

  /** Every stored vote is valid and no two stored votes collide. */
  ghost predicate VotesOk(rows: seq<Vote>) {
    && (forall i :: 0 <= i < |rows| ==> Valid(rows[i].data))
    && (forall i, j :: 0 <= i < |rows| && 0 <= j < |rows| && i != j ==> !Clash(rows[i].data, rows[j].data))
  }

  ghost predicate TableOk(votes: Collection<VoteData>)
    reads votes
  {
    votes.Valid() && VotesOk(votes.rows)
  }

  /** Whether `Vote.create` accepts the document: valid, and colliding with no stored vote. */
  predicate Admissible(rows: seq<Vote>, d: VoteData) {
    Valid(d) && forall i :: 0 <= i < |rows| ==> !Clash(rows[i].data, d)
  }

  /** The outcome of `Vote.create`: the stored vote, a validation error, or a duplicate-key error. */
  datatype Outcome = Stored(vote: Vote) | ValidationError | DuplicateKey

  /** `Vote.create(input)`: stores the vote, or reports why it cannot. */
  method Create(votes: Collection<VoteData>, v: Input, now: int) returns (r: Outcome)
    requires TableOk(votes)
    modifies votes
    ensures TableOk(votes)
    ensures var d := WithDefaults(v, now);
      && (!Valid(d) ==> r == ValidationError && votes.rows == old(votes.rows))
      && (Valid(d) && !Admissible(old(votes.rows), d) ==> r == DuplicateKey && votes.rows == old(votes.rows))
      && (Admissible(old(votes.rows), d) ==>
            r.Stored? && r.vote.data == d && r.vote.createdAt == now && votes.rows == old(votes.rows) + [r.vote])
  {
    var d := WithDefaults(v, now);
    if !Valid(d) {
      return ValidationError;
    }
    if exists i :: 0 <= i < |votes.rows| && Clash(votes.rows[i].data, d) {
      return DuplicateKey;
    }
    var created := votes.Create(d, now);
    r := Stored(created);
  }

  /** A quick-poll vote never collides, so a valid one is always stored. */
  lemma QuickPollAlwaysAdmissible(rows: seq<Vote>, d: VoteData)
    requires Valid(d) && d.isQuickPoll
    ensures Admissible(rows, d)
  {
  }

  /** A vote with neither a string `voterId` nor a string `guestToken` is not constrained by the indexes. */
  lemma UnindexedAlwaysAdmissible(rows: seq<Vote>, d: VoteData)
    requires Valid(d) && d.voterId.None? && d.guestToken.None?
    ensures Admissible(rows, d)
  {
  }

  /** A second standard-mode vote by the same voter in the same event and category is refused. */
  lemma SecondStandardVoteRefused(rows: seq<Vote>, k: nat, d: VoteData)
    requires k < |rows| && !rows[k].data.isQuickPoll && !d.isQuickPoll
    requires rows[k].data.eventId == d.eventId && rows[k].data.category == d.category
    requires (rows[k].data.voterId.Some? && rows[k].data.voterId == d.voterId)
          || (rows[k].data.guestToken.Some? && rows[k].data.guestToken == d.guestToken)
    ensures !Admissible(rows, d)
  {
    assert Clash(rows[k].data, d);
  }

  /** Under the invariant, two stored standard-mode votes of one voter or one guest differ in event or category. */
  lemma OneStandardVotePerCategory(rows: seq<Vote>, i: nat, j: nat)
    requires VotesOk(rows) && i < |rows| && j < |rows| && i != j
    requires !rows[i].data.isQuickPoll && !rows[j].data.isQuickPoll
    requires || (rows[i].data.voterId.Some? && rows[i].data.voterId == rows[j].data.voterId)
             || (rows[i].data.guestToken.Some? && rows[i].data.guestToken == rows[j].data.guestToken)
    ensures rows[i].data.eventId != rows[j].data.eventId || rows[i].data.category != rows[j].data.category
  {
    assert !Clash(rows[i].data, rows[j].data);
  }
}
