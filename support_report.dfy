/**
 * `/api/support/report`: file a support report (POST) and list a user's
 * reports (GET). The route declares its own report schema; the priority is
 * derived from the category.
 */
module SupportReport {
  import opened Wrappers
  import opened Query
  import opened Collections

  datatype Metadata = Metadata(platform: Option<string>, appVersion: Option<string>, deviceInfo: Option<string>)

  datatype ReportData = ReportData(
    userId: Option<Id>,
    email: string,
    name: string,
    category: string,
    subject: string,
    description: string,
    priority: string,
    status: string,
    metadata: Metadata)

  type Report = Doc<ReportData>

  const Categories: seq<string> := ["bug", "feature", "content", "abuse", "other"]

  /** The triage rule: bugs and abuse are urgent, features and "other" are not. */
  function Priority(category: string): (p: string)
    ensures p == "high" <==> category == "bug" || category == "abuse"
    ensures p == "low" <==> category == "feature" || category == "other"
    ensures p == "medium" <==> !(category in ["bug", "abuse", "feature", "other"])
  {
    if category == "bug" || category == "abuse" then "high"
    else if category == "feature" || category == "other" then "low"
    else "medium"
  }

  /** Every stored report has a known category and the priority its category calls for. */
  ghost predicate TableOk(c: Collection<ReportData>)
    reads c
  {
    && c.Valid()
    && forall i :: 0 <= i < |c.rows| ==>
         c.rows[i].data.category in Categories && c.rows[i].data.priority == Priority(c.rows[i].data.category)
  }

  // ---------------------------------------------------------------- POST

  datatype Body = Body(
    userId: Option<string>, email: Option<string>, name: Option<string>, category: Option<string>,
    subject: Option<string>, description: Option<string>, metadata: Option<Metadata>)

  const RequiredFields: seq<string> := ["email", "name", "category", "subject", "description"]

  function Field(b: Body, field: string): Option<string> {
    match field
    case "email" => b.email
    case "name" => b.name
    case "category" => b.category
    case "subject" => b.subject
    case _ => b.description
  }

  function IsMissing(b: Body): string -> bool {
    (field: string) => !Truthy(Field(b, field))
  }

  /** The `missingFields` list, built one test and push at a time. */
  method MissingFields(b: Body) returns (missing: seq<string>)
    ensures missing == Filter(RequiredFields, IsMissing(b))
    ensures missing == [] <==>
      Truthy(b.email) && Truthy(b.name) && Truthy(b.category) && Truthy(b.subject) && Truthy(b.description)
  {
    missing := [];
    ghost var e, n, c := Tested(b, !Truthy(b.email), "email"), Tested(b, !Truthy(b.name), "name"),
      Tested(b, !Truthy(b.category), "category");
    ghost var s, d := Tested(b, !Truthy(b.subject), "subject"), Tested(b, !Truthy(b.description), "description");
    if !Truthy(b.email) { missing := missing + ["email"]; }
    assert missing == e;
    if !Truthy(b.name) { missing := missing + ["name"]; }
    assert missing == e + n;
    if !Truthy(b.category) { missing := missing + ["category"]; }
    assert missing == e + n + c;
    if !Truthy(b.subject) { missing := missing + ["subject"]; }
    assert missing == e + n + c + s;
    if !Truthy(b.description) { missing := missing + ["description"]; }
    assert missing == e + n + c + s + d;
    Regroup(e, n, c, s, d);
    MissingInOrder(b);
  }

  lemma Regroup<T>(a: seq<T>, b: seq<T>, c: seq<T>, d: seq<T>, e: seq<T>)
    ensures a + b + c + d + e == a + (b + (c + (d + e)))
  {
    Assoc(a + b + c, d, e);
    Assoc(a + b, c, d + e);
    Assoc(a, b, c + (d + e));
  }

  lemma Assoc<T>(a: seq<T>, b: seq<T>, c: seq<T>)
    ensures a + b + c == a + (b + c)
  {
  }

  /** One field's contribution to the list. */
  function Tested(b: Body, missing: bool, field: string): seq<string> {
    if missing then [field] else []
  }

  /** Filtering the required fields tests them in their order. */
  lemma MissingInOrder(b: Body)
    ensures Filter(RequiredFields, IsMissing(b)) ==
      Tested(b, !Truthy(b.email), "email") + (Tested(b, !Truthy(b.name), "name")
      + (Tested(b, !Truthy(b.category), "category") + (Tested(b, !Truthy(b.subject), "subject")
      + Tested(b, !Truthy(b.description), "description"))))
  {
    FieldsTested(b);
    FilterFive("email", "name", "category", "subject", "description", IsMissing(b));
  }

  /** `Filter` on a list of five, written out. */
  lemma FilterFive<T>(x0: T, x1: T, x2: T, x3: T, x4: T, keep: T -> bool)
    ensures Filter([x0, x1, x2, x3, x4], keep) ==
      Kept(x0, keep) + (Kept(x1, keep) + (Kept(x2, keep) + (Kept(x3, keep) + Kept(x4, keep))))
  {
    FilterStep(x4, [], keep);
    assert [x4] == [x4] + [];
    FilterStep(x3, [x4], keep);
    FilterStep(x2, [x3, x4], keep);
    assert [x2] + [x3, x4] == [x2, x3, x4];
    FilterStep(x1, [x2, x3, x4], keep);
    assert [x1] + [x2, x3, x4] == [x1, x2, x3, x4];
    FilterStep(x0, [x1, x2, x3, x4], keep);
    assert [x0] + [x1, x2, x3, x4] == [x0, x1, x2, x3, x4];
  }

  lemma FilterStep<T>(x: T, rest: seq<T>, keep: T -> bool)
    ensures Filter([x] + rest, keep) == Kept(x, keep) + Filter(rest, keep)
  {
    assert ([x] + rest)[1..] == rest;
  }

  function Kept<T>(x: T, keep: T -> bool): seq<T> {
    if keep(x) then [x] else []
  }

  /** Which required fields count as missing. */
  lemma FieldsTested(b: Body)
    ensures Kept("email", IsMissing(b)) == Tested(b, !Truthy(b.email), "email")
    ensures Kept("name", IsMissing(b)) == Tested(b, !Truthy(b.name), "name")
    ensures Kept("category", IsMissing(b)) == Tested(b, !Truthy(b.category), "category")
    ensures Kept("subject", IsMissing(b)) == Tested(b, !Truthy(b.subject), "subject")
    ensures Kept("description", IsMissing(b)) == Tested(b, !Truthy(b.description), "description")
  {
  }

  /** What the 400 reply echoes back: the fields as sent, the description only as present or missing. */
  datatype Received = Received(
    email: Option<string>, name: Option<string>, category: Option<string>, subject: Option<string>,
    description: string)

  datatype Reply =
    | Missing(missingFields: seq<string>, received: Received)
    | Failure(status: nat, error: string)
    | Submitted(reportId: Id, message: string)

  const InvalidCategory: string := "Invalid category. Must be one of: bug, feature, content, abuse, other"

  /** What `Report.create` reports when a `userId` is no id. */
  const CreateRejected: string := "Report validation failed"

  /** `Report.create` for a report that passes the schema. */
  method Store(c: Collection<ReportData>, data: ReportData, now: int) returns (report: Report)
    requires TableOk(c)
    requires data.category in Categories && data.priority == Priority(data.category)
    modifies c
    ensures TableOk(c)
    ensures report.data == data && report.createdAt == now
    ensures c.rows == old(c.rows) + [report]
  {
    report := c.Create(data, now);
    forall i | 0 <= i < |c.rows|
      ensures c.rows[i].data.category in Categories && c.rows[i].data.priority == Priority(c.rows[i].data.category)
    {
      if i < |old(c.rows)| {
        assert c.rows[i] == old(c.rows)[i];
      }
    }
  }

  method Post(c: Collection<ReportData>, b: Body, now: int) returns (reply: Reply)
    requires TableOk(c)
    modifies c
    ensures TableOk(c)
    ensures !(Truthy(b.email) && Truthy(b.name) && Truthy(b.category) && Truthy(b.subject) && Truthy(b.description)) ==>
      && reply.Missing? && reply.missingFields == Filter(RequiredFields, IsMissing(b))
      && reply.received == Received(b.email, b.name, b.category, b.subject,
                                    if Truthy(b.description) then "present" else "missing")
      && c.rows == old(c.rows)
    ensures Truthy(b.email) && Truthy(b.name) && Truthy(b.category) && Truthy(b.subject) && Truthy(b.description) ==>
      var badId := Truthy(b.userId) && ParseId(b.userId.value).None?;
      var userId := if Truthy(b.userId) then ParseId(b.userId.value) else None;
      && (b.category.value !in Categories ==> reply == Failure(400, InvalidCategory) && c.rows == old(c.rows))
      && (b.category.value in Categories && badId ==>
            reply == Failure(500, CreateRejected) && c.rows == old(c.rows))
      && (b.category.value in Categories && !badId ==>
            var n := |old(c.rows)|;
            && |c.rows| == n + 1 && c.rows[..n] == old(c.rows) && c.rows[n].createdAt == now
            && c.rows[n].data == ReportData(
                 userId,
                 b.email.value, b.name.value, b.category.value, b.subject.value, b.description.value,
                 Priority(b.category.value), "open", b.metadata.GetOr(Metadata(None, None, None)))
            && reply == Submitted(c.rows[n].id, "Report submitted successfully. We'll get back to you soon!"))
  {
    var missing := MissingFields(b);
    if missing != [] {
      return Missing(missing, Received(b.email, b.name, b.category, b.subject,
                                       if Truthy(b.description) then "present" else "missing"));
    }
    var category := b.category.value;
    if category !in Categories {
      return Failure(400, InvalidCategory);
    }
    var userId: Option<Id> := None;
    if Truthy(b.userId) {
      userId := ParseId(b.userId.value);
      if userId.None? {
        return Failure(500, CreateRejected);
      }
    }
    var data := ReportData(userId, b.email.value, b.name.value, category, b.subject.value, b.description.value,
                           Priority(category), "open", b.metadata.GetOr(Metadata(None, None, None)));
    ghost var before := c.rows;
    var report := Store(c, data, now);
    assert c.rows[..|before|] == before;
    reply := Submitted(report.id, "Report submitted successfully. We'll get back to you soon!");
  }

  // ---------------------------------------------------------------- GET

  const ListLimit: int := 50

  function FiledBy(userId: Id): Report -> bool {
    (r: Report) => r.data.userId == Some(userId)
  }

  function Get(rows: seq<Report>, userId: Option<string>): (r: Response<seq<Report>>)
    ensures !Truthy(userId) ==> r == Error(400, "User ID required")
    ensures Truthy(userId) && ParseId(userId.value).None? ==> r == Error(500, CastError)
    ensures Truthy(userId) && ParseId(userId.value).Some? ==>
      && r.Ok? && r.status == 200
      && (forall i :: 0 <= i < |r.body| ==> r.body[i] in rows && r.body[i].data.userId == ParseId(userId.value))
      && (forall i, j :: 0 <= i < j < |r.body| ==> r.body[i].createdAt >= r.body[j].createdAt)
      && |r.body| == Min(|Filter(rows, FiledBy(ParseId(userId.value).value))|, ListLimit)
      && multiset(r.body) <= multiset(rows)
      && NoneNewerLeftOut(rows, FiledBy(ParseId(userId.value).value), CreatedAt, r.body)
  {
    if !Truthy(userId) then Error(400, "User ID required")
    else match ParseId(userId.value)
      case None => Error(500, CastError)
      case Some(id) =>
        NewestSpec(rows, FiledBy(id), CreatedAt, ListLimit);
        Ok(200, Newest(rows, FiledBy(id), CreatedAt, ListLimit))
  }
}
