/**
 * The public enquiry form's endpoint (`POST /api/property-inquiry`): it
 * checks the body, stores one enquiry row with status "new" and answers 201,
 * or refuses with 400 or 500 without storing anything.
 */
module InquiryIntake {
  import opened Wrappers
  import opened JsText
  import opened Http

  // ---------------------------------------------------------------- e-mail

  /** A character the class `[^\s@]` accepts. */
  predicate EmailChar(c: char) {
    !IsWhitespace(c) && c != '@'
  }

  /**
   * `s` matches `^[^\s@]+@[^\s@]+\.[^\s@]+$` with the `@` at `i` and the
   * literal dot at `j`: three non-empty runs of `[^\s@]` around them.
   */
  ghost predicate SplitsAt(s: string, i: int, j: int) {
    && 0 < i && i + 1 < j && j + 1 < |s|
    && s[i] == '@' && s[j] == '.'
    && forall k :: 0 <= k < |s| && k != i ==> EmailChar(s[k])
  }

  ghost predicate MatchesEmailPattern(s: string) {
    exists i, j :: SplitsAt(s, i, j)
  }

  /** A dot strictly inside `r`: neither its first nor its last character. */
  predicate HasInnerDot(r: string) {
    exists m :: 1 <= m < |r| - 1 && r[m] == '.'
  }

  /** The e-mail check, read left to right: one `@` with text before it, then a dot inside the domain. */
  function ValidEmail(s: string): bool {
    var local := BeforeFirst(s, '@');
    && |local| < |s| && local != []
    && (forall k :: 0 <= k < |s| ==> !IsWhitespace(s[k]))
    && '@' !in s[|local| + 1..]
    && HasInnerDot(s[|local| + 1..])
  }

  /** The check accepts exactly the strings the regular expression matches. */
  lemma ValidEmailMeaning(s: string)
    ensures ValidEmail(s) <==> MatchesEmailPattern(s)
  {
    var local := BeforeFirst(s, '@');
    var i := |local|;
    if ValidEmail(s) {
      var rest := s[i + 1..];
      var m :| 1 <= m < |rest| - 1 && rest[m] == '.';
      forall k | 0 <= k < |s| && k != i ensures EmailChar(s[k]) {
        if k < i {
          assert s[k] == local[k];
        } else {
          assert s[k] == rest[k - i - 1];
        }
      }
      assert SplitsAt(s, i, i + 1 + m);
    }
    if MatchesEmailPattern(s) {
      var a, j :| SplitsAt(s, a, j);
      forall k | 0 <= k < i ensures s[k] != '@' {
        assert s[k] == local[k];
      }
      assert i <= a;
      assert i == a;
      var rest := s[i + 1..];
      forall x | 0 <= x < |rest| ensures rest[x] != '@' {
        assert rest[x] == s[i + 1 + x];
      }
      assert rest[j - i - 1] == '.';
    }
  }

  /** Lower-case letters, digits and dots pass `[^\s@]`. */
  lemma PlainCharsAreEmailChars(s: string)
    requires forall k :: 0 <= k < |s| ==> 'a' <= s[k] <= 'z' || '0' <= s[k] <= '9' || s[k] == '.' || s[k] == '@'
    ensures forall k :: 0 <= k < |s| && s[k] != '@' ==> EmailChar(s[k])
  {
  }

  lemma AcceptsPlainAddress()
    ensures ValidEmail("ali@example.com")
  {
    var s := "ali@example.com";
    PlainCharsAreEmailChars(s);
    assert SplitsAt(s, 3, 11);
    ValidEmailMeaning(s);
  }

  lemma AcceptsDottedParts()
    ensures ValidEmail("a.b@c.d.e")
  {
    var s := "a.b@c.d.e";
    PlainCharsAreEmailChars(s);
    assert SplitsAt(s, 3, 5);
    ValidEmailMeaning(s);
  }

  lemma RejectsNoAt()
    ensures !ValidEmail("not-an-email")
  {
  }

  lemma RejectsNoDot()
    ensures !ValidEmail("ali@example")
  {
    var s := "ali@example";
    var local := BeforeFirst(s, '@');
    assert s[3] == '@';
    assert |local| == 3;
    var domain := s[4..];
    assert domain == "example";
    assert forall m :: 0 <= m < |domain| ==> domain[m] != '.';
  }

  lemma RejectsSpace()
    ensures !ValidEmail("ali @example.com")
  {
    var s := "ali @example.com";
    assert IsWhitespace(s[3]);
  }

  lemma RejectsTwoAts()
    ensures !ValidEmail("a@b@c.d")
  {
  }

  // ---------------------------------------------------------------- request

  /** The fields destructured from the body. */
  datatype InquiryBody = InquiryBody(
    propertyId: Field, name: Field, email: Field, phone: Field, message: Field, inquiryType: Field)

  /** One row of `property_inquiries`. */
  datatype Inquiry = Inquiry(
    id: string, propertyId: string, userId: Option<string>, name: string, email: string,
    phone: Option<string>, message: string, inquiryType: Option<string>, status: string)

  datatype Rejection = MissingFields | InvalidEmail

  predicate HasRequired(b: InquiryBody) {
    Given(b.propertyId) && Given(b.name) && Given(b.email) && Given(b.message)
  }

  /** The two validations, in the order the handler runs them. */
  function Check(b: InquiryBody): (r: Option<Rejection>)
    ensures r == Some(MissingFields) <==> !HasRequired(b)
    ensures r == Some(InvalidEmail) <==> HasRequired(b) && !MatchesEmailPattern(b.email.text)
    ensures r == None <==> HasRequired(b) && MatchesEmailPattern(b.email.text)
  {
    if !HasRequired(b) then Some(MissingFields)
    else
      ValidEmailMeaning(b.email.text);
      if !ValidEmail(b.email.text) then Some(InvalidEmail) else None
  }

  function RejectionReply(r: Rejection): Reply {
    match r
    case MissingFields => Reply(400, "Missing required fields")
    case InvalidEmail => Reply(400, "Invalid email format")
  }

  /** `inquiry_type = 'general'`: the default replaces only an absent field, not `null`. */
  function InquiryType(f: Field): (t: Option<string>)
    ensures f.Absent? ==> t == Some("general")
    ensures f.Null? ==> t.None?
    ensures f.Str? ==> t == Some(f.text)
  {
    match f
    case Absent => Some("general")
    case Null => None
    case Str(s) => Some(s)
  }

  /** The row inserted for an accepted body; `caller` is the signed-in user's id, if any. */
  function Record(b: InquiryBody, caller: Option<string>, id: string): (r: Inquiry)
    requires HasRequired(b)
    ensures r.id == id && r.status == "new"
    ensures r.userId.Some? <==> caller.Some? && caller.value != ""
    ensures r.userId.Some? ==> r.userId == caller
    ensures r.phone.Some? <==> Given(b.phone)
    ensures r.phone.Some? ==> r.phone.value == b.phone.text
    ensures r.inquiryType == InquiryType(b.inquiryType)
    ensures r.propertyId == b.propertyId.text && r.name == b.name.text
    ensures r.email == b.email.text && r.message == b.message.text
  {
    Inquiry(id, b.propertyId.text,
      if caller.Some? && caller.value != "" then caller else None,
      b.name.text, b.email.text, OrNull(b.phone), b.message.text,
      InquiryType(b.inquiryType), "new")
  }

  /** What every row this endpoint inserts satisfies. */
  predicate WellFormed(r: Inquiry) {
    && r.propertyId != "" && r.name != "" && r.message != ""
    && ValidEmail(r.email)
    && (r.phone.Some? ==> r.phone.value != "")
  }

  lemma AcceptedIsWellFormed(b: InquiryBody, caller: Option<string>, id: string)
    requires Check(b) == None
    ensures WellFormed(Record(b, caller, id))
    ensures Record(b, caller, id).status == "new"
  {
    ValidEmailMeaning(b.email.text);
  }

  // ---------------------------------------------------------------- table

  /** The `property_inquiries` table as this endpoint sees it. */
  class InquiryTable {
    var rows: seq<Inquiry>

    ghost predicate Valid()
      reads this
    {
      forall r :: r in rows ==> WellFormed(r)
    }

    constructor ()
      ensures rows == [] && Valid()
    {
      rows := [];
    }

    /**
     * One request. `body` is `None` when the body is
     * `null` or not valid JSON, whose destructuring throws (any other value,
     * such as a number or an array, gives all-absent fields);
     * `caller` is the session's user id; `storageFails` is the insert's error;
     * `newId` is the id the database assigns.
     */
    method Post(body: Option<InquiryBody>, caller: Option<string>, storageFails: bool, newId: string)
      returns (reply: Reply, stored: Option<Inquiry>)
      requires Valid()
      modifies this
      ensures Valid()
      ensures body.None? ==> reply == InternalError && stored.None? && rows == old(rows)
      ensures body.Some? && Check(body.value).Some? ==>
        reply == RejectionReply(Check(body.value).value) && stored.None? && rows == old(rows)
      ensures body.Some? && Check(body.value).None? && storageFails ==>
        reply == Reply(500, "Failed to submit inquiry") && stored.None? && rows == old(rows)
      ensures body.Some? && Check(body.value).None? && !storageFails ==>
        var r := Record(body.value, caller, newId);
        reply == Reply(201, "Inquiry submitted successfully") && stored == Some(r) && rows == old(rows) + [r]
    {
      if body.None? {
        return InternalError, None;
      }
      var b := body.value;
      var rejection := Check(b);
      if rejection.Some? {
        return RejectionReply(rejection.value), None;
      }
      if storageFails {
        return Reply(500, "Failed to submit inquiry"), None;
      }
      var r := Record(b, caller, newId);
      AcceptedIsWellFormed(b, caller, newId);
      rows := rows + [r];
      return Reply(201, "Inquiry submitted successfully"), Some(r);
    }
  }
}
