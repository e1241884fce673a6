/**
 * `PUT /api/profile/update`: a partial update of the caller's own profile.
 * A blank name never overwrites the stored one; the Arabic name and the
 * phone, when sent, are stored trimmed or cleared to null; the update time
 * is always written.
 */
module ProfileUpdate {
  import opened Wrappers
  import opened JsText
  import opened Http
  import opened Accounts

  datatype UpdateBody = UpdateBody(fullName: Field, fullNameAr: Field, phone: Field)

  /**
   * The `updateData` object: a field is `None` when the handler leaves it
   * out, and `Some(v)` when it writes `v` (for the nullable columns `v` is
   * itself optional, `None` being `null`).
   */
  datatype Change = Change(
    fullName: Option<string>, fullNameAr: Option<Option<string>>, phone: Option<Option<string>>,
    updatedAt: string)

  /** `field?.trim() || null` for a field that is present (a string or `null`). */
  function TrimmedOrNull(f: Field): (r: Option<string>)
    ensures r.Some? <==> f.Str? && Trim(f.text) != ""
    ensures r.Some? ==> r.value == Trim(f.text)
  {
    if f.Str? && Trim(f.text) != "" then Some(Trim(f.text)) else None
  }

  /** What the handler puts into `updateData` for a body, `now` being the request's clock reading. */
  function UpdateData(b: UpdateBody, now: string): (c: Change)
    ensures c.updatedAt == now
    ensures c.fullName.Some? <==> b.fullName.Str? && Trim(b.fullName.text) != ""
    ensures c.fullName.Some? ==> c.fullName.value == Trim(b.fullName.text)
    ensures c.fullNameAr.None? <==> b.fullNameAr.Absent?
    ensures c.fullNameAr.Some? ==> c.fullNameAr.value == TrimmedOrNull(b.fullNameAr)
    ensures c.phone.None? <==> b.phone.Absent?
    ensures c.phone.Some? ==> c.phone.value == TrimmedOrNull(b.phone)
  {
    Change(
      if b.fullName.Str? && Trim(b.fullName.text) != "" then Some(Trim(b.fullName.text)) else None,
      if b.fullNameAr.Absent? then None else Some(TrimmedOrNull(b.fullNameAr)),
      if b.phone.Absent? then None else Some(TrimmedOrNull(b.phone)),
      now)
  }

  /** The row after the update: the written fields replaced, everything else kept. */
  function Apply(p: Profile, c: Change): (q: Profile)
    ensures q.id == p.id && q.userId == p.userId && q.role == p.role
    ensures q.updatedAt == Some(c.updatedAt)
    ensures q.fullName == (if c.fullName.Some? then c.fullName.value else p.fullName)
    ensures q.fullNameAr == (if c.fullNameAr.Some? then c.fullNameAr.value else p.fullNameAr)
    ensures q.phone == (if c.phone.Some? then c.phone.value else p.phone)
  {
    p.(fullName := c.fullName.GetOr(p.fullName),
       fullNameAr := c.fullNameAr.GetOr(p.fullNameAr),
       phone := c.phone.GetOr(p.phone),
       updatedAt := Some(c.updatedAt))
  }

  /** A stored text has no white space at either end; a nullable one is null rather than empty. */
  predicate Tidy(p: Profile) {
    && Trim(p.fullName) == p.fullName
    && (p.fullNameAr.Some? ==> p.fullNameAr.value != "" && Trim(p.fullNameAr.value) == p.fullNameAr.value)
    && (p.phone.Some? ==> p.phone.value != "" && Trim(p.phone.value) == p.phone.value)
  }

  /** What `TrimmedOrNull` stores is non-empty and already trimmed. */
  lemma TrimmedOrNullIsTidy(f: Field)
    ensures var r := TrimmedOrNull(f); r.Some? ==> r.value != "" && Trim(r.value) == r.value
  {
    if f.Str? {
      TrimIdempotent(f.text);
    }
  }

  /** Every value the update writes is already trimmed, so a tidy row stays tidy. */
  lemma UpdateKeepsTidy(p: Profile, b: UpdateBody, now: string)
    requires Tidy(p)
    ensures Tidy(Apply(p, UpdateData(b, now)))
  {
    var c := UpdateData(b, now);
    var q := Apply(p, c);
    if c.fullName.Some? {
      TrimIdempotent(b.fullName.text);
      assert Trim(q.fullName) == q.fullName;
    }
    TrimmedOrNullIsTidy(b.fullNameAr);
    TrimmedOrNullIsTidy(b.phone);
  }

  /** Sending the same body again changes nothing but the update time. */
  lemma UpdateRepeatable(p: Profile, b: UpdateBody, now: string, later: string)
    ensures Apply(Apply(p, UpdateData(b, now)), UpdateData(b, later))
      == Apply(p, UpdateData(b, now)).(updatedAt := Some(later))
  {
  }

  /**
   * One request against the profiles table. `body` is `None` when the body
   * is `null` or not valid JSON, whose destructuring throws (any other value,
   * such as a number or an array, gives all-absent fields); `session` is the signed-in user's id.
   */
  method Update(table: ProfileTable, body: Option<UpdateBody>, session: Option<string>,
                authFails: bool, storageFails: bool, now: string)
    returns (reply: Reply)
    modifies table
    ensures body.None? ==> reply == InternalError && table.profiles == old(table.profiles)
    ensures body.Some? && (authFails || session.None?) ==>
      reply == Unauthorized && table.profiles == old(table.profiles)
    ensures body.Some? && !authFails && session.Some? && storageFails ==>
      reply == Reply(500, "Failed to update profile") && table.profiles == old(table.profiles)
    ensures body.Some? && !authFails && session.Some? && !storageFails ==>
      var id := session.value;
      reply == Reply(200, "Profile updated successfully")
      && table.profiles == (if id in old(table.profiles)
                            then old(table.profiles)[id := Apply(old(table.profiles)[id], UpdateData(body.value, now))]
                            else old(table.profiles))
  {
    if body.None? {
      return InternalError;
    }
    if authFails || session.None? {
      return Unauthorized;
    }
    var b := body.value;
    var change := Change(None, None, None, now);
    if b.fullName.Str? && Trim(b.fullName.text) != "" {
      change := change.(fullName := Some(Trim(b.fullName.text)));
    }
    if !b.fullNameAr.Absent? {
      change := change.(fullNameAr := Some(TrimmedOrNull(b.fullNameAr)));
    }
    if !b.phone.Absent? {
      change := change.(phone := Some(TrimmedOrNull(b.phone)));
    }
    assert change == UpdateData(b, now);
    if storageFails {
      return Reply(500, "Failed to update profile");
    }
    var id := session.value;
    if id in table.profiles {
      table.profiles := table.profiles[id := Apply(table.profiles[id], change)];
    }
    return Reply(200, "Profile updated successfully");
  }
}
