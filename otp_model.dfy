/**
 * The one-time-password document of `lib/models/OTP.ts` and the invariant the
 * three OTP routes keep over its collection: every stored code has six
 * digits, its attempt counter never passes its limit, and each contact has at
 * most one unverified code at a time.
 */
module OtpModel {
  import opened Wrappers
  import opened JsStrings
  import opened Query
  import opened Collections

  datatype OtpData = OtpData(
    phoneOrEmail: string,
    kind: string,
    code: string,
    expiresAt: int,
    verified: bool,
    attempts: int,
    maxAttempts: int,
    purpose: string)

  type Otp = Doc<OtpData>

  /** Ten minutes, the lifetime of a new code, in milliseconds. */
  const CodeLifetime: int := 10 * 60 * 1000

  const DefaultMaxAttempts: int := 5

  /** The schema's enumeration for `type`. */
  predicate ValidKind(kind: string) {
    kind == "phone" || kind == "email"
  }

  predicate ValidPurpose(purpose: string) {
    purpose == "signup" || purpose == "login" || purpose == "reset"
  }

  /** An OTP document as `OTP.create` stores it, with the schema defaults. */
  function NewOtp(contact: string, kind: string, code: string, expiresAt: int, purpose: string): OtpData {
    OtpData(contact, kind, code, expiresAt, false, 0, DefaultMaxAttempts, purpose)
  }

  /** The filter `{ phoneOrEmail: contact, verified: false }`. */
  function UnverifiedFor(contact: string): Otp -> bool {
    (o: Otp) => o.data.phoneOrEmail == contact && !o.data.verified
  }

  predicate SixDigitCode(code: string) {
    |code| == 6 && forall i :: 0 <= i < |code| ==> IsDigit(code[i])
  }

  predicate WellFormed(o: OtpData) {
    && ValidKind(o.kind) && ValidPurpose(o.purpose)
    && SixDigitCode(o.code)
    && 0 <= o.attempts <= o.maxAttempts
  }

  /** The invariant of the OTP collection. */
  ghost predicate OtpsOk(rows: seq<Otp>) {
    && (forall i :: 0 <= i < |rows| ==> WellFormed(rows[i].data))
    && (forall i, j :: 0 <= i < |rows| && 0 <= j < |rows| && i != j && !rows[i].data.verified && !rows[j].data.verified ==>
          rows[i].data.phoneOrEmail != rows[j].data.phoneOrEmail)
  }

  ghost predicate TableOk(otps: Collection<OtpData>)
    reads otps
  {
    otps.Valid() && OtpsOk(otps.rows)
  }

  /** Deleting documents keeps the invariant. */
  lemma RejectKeepsOtps(rows: seq<Otp>, drop: Otp -> bool)
    requires DistinctIds(rows) && OtpsOk(rows)
    ensures OtpsOk(Reject(rows, drop))
  {
    var r := Reject(rows, drop);
    RejectMembers(rows, drop);
    RejectKeepsIds(rows, drop);
    forall i, j | 0 <= i < |r| && 0 <= j < |r| && i != j && !r[i].data.verified && !r[j].data.verified
      ensures r[i].data.phoneOrEmail != r[j].data.phoneOrEmail
    {
      var a :| 0 <= a < |rows| && rows[a] == r[i];
      var b :| 0 <= b < |rows| && rows[b] == r[j];
      assert r[i].id != r[j].id;
    }
  }

  /** A new well-formed code for a contact with no unverified code keeps the invariant. */
  lemma AppendKeepsOtps(rows: seq<Otp>, d: Otp)
    requires OtpsOk(rows) && WellFormed(d.data)
    requires forall i :: 0 <= i < |rows| ==> !UnverifiedFor(d.data.phoneOrEmail)(rows[i])
    ensures OtpsOk(rows + [d])
  {
  }

  /** A saved change that keeps a document well-formed and does not un-verify it keeps the invariant. */
  lemma SaveKeepsOtps(rows: seq<Otp>, k: nat, data: OtpData)
    requires DistinctIds(rows) && OtpsOk(rows) && k < |rows|
    requires WellFormed(data) && data.phoneOrEmail == rows[k].data.phoneOrEmail
    requires rows[k].data.verified ==> data.verified
    ensures OtpsOk(SetData(rows, rows[k].id, data))
  {
    SetDataChangesOne(rows, k, data);
  }
}
