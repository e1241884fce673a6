/**
 * Signed-in users and their `user_profiles` rows: the profile the sign-in
 * callback and the dashboard create for a user who has none, and the table
 * both of them and the profile-update endpoint work on.
 */
module Accounts {
  import opened Wrappers
  import opened JsText

  /** A metadata or e-mail value counts only when it is a non-empty string. */
  predicate Filled(o: Option<string>) {
    o.Some? && o.value != ""
  }

  /** The authenticated user: id, e-mail and the sign-up metadata the register form stored. */
  datatype AuthUser = AuthUser(
    id: string, email: Option<string>,
    metaFullName: Option<string>, metaFullNameAr: Option<string>, metaPhone: Option<string>)

  /** One row of `user_profiles`. `updatedAt` is `None` until the update endpoint first writes it. */
  datatype Profile = Profile(
    id: string, userId: Option<string>, fullName: string, fullNameAr: Option<string>,
    phone: Option<string>, role: string, updatedAt: Option<string>)

  /** `full_name || email?.split('@')[0] || ''` */
  function DefaultFullName(u: AuthUser): (name: string)
    ensures Filled(u.metaFullName) ==> name == u.metaFullName.value
    ensures !Filled(u.metaFullName) && u.email.Some? ==>
      |name| <= |u.email.value| && name == u.email.value[..|name|] && '@' !in name
      && (|name| < |u.email.value| ==> u.email.value[|name|] == '@')
    ensures !Filled(u.metaFullName) && u.email.None? ==> name == ""
  {
    if Filled(u.metaFullName) then u.metaFullName.value
    else if u.email.Some? then BeforeFirst(u.email.value, '@')
    else ""
  }

  lemma DefaultNameExamples()
    ensures DefaultFullName(AuthUser("u1", Some("sara@example.com"), None, None, None)) == "sara"
    ensures DefaultFullName(AuthUser("u1", Some("sara@example.com"), Some(""), None, None)) == "sara"
    ensures DefaultFullName(AuthUser("u1", Some("sara@example.com"), Some("Sara"), None, None)) == "Sara"
    ensures DefaultFullName(AuthUser("u1", None, None, None, None)) == ""
  {
    assert "sara@example.com"[4] == '@';
    assert "sara@example.com"[..4] == "sara";
  }

  /** The row inserted for a user without a profile. */
  function NewProfile(u: AuthUser): (p: Profile)
    ensures p.id == u.id && p.userId == Some(u.id) && p.role == "user"
    ensures p.fullName == DefaultFullName(u)
    ensures p.fullNameAr == Some(if Filled(u.metaFullNameAr) then u.metaFullNameAr.value else "")
    ensures p.phone.Some? <==> Filled(u.metaPhone)
    ensures p.phone.Some? ==> p.phone == u.metaPhone
  {
    Profile(u.id, Some(u.id), DefaultFullName(u),
      Some(if Filled(u.metaFullNameAr) then u.metaFullNameAr.value else ""),
      if Filled(u.metaPhone) then u.metaPhone else None,
      "user", None)
  }

  /** The `user_profiles` table, keyed by profile id. */
  class ProfileTable {
    var profiles: map<string, Profile>

    constructor (initial: map<string, Profile>)
      ensures profiles == initial
    {
      profiles := initial;
    }

    /**
     * Look the user's profile up and insert the default one when there is
     * none. `insertFails` is the insert's error, which the callers ignore.
     */
    method EnsureProfile(u: AuthUser, insertFails: bool) returns (existed: bool)
      modifies this
      ensures existed <==> u.id in old(profiles)
      ensures existed || insertFails ==> profiles == old(profiles)
      ensures !existed && !insertFails ==> profiles == old(profiles)[u.id := NewProfile(u)]
    {
      existed := u.id in profiles;
      if !existed {
        InsertDefault(u, insertFails);
      }
    }

    /**
     * Insert the default profile without looking first. The table's primary
     * key refuses a second row with the same id, so an existing profile is
     * left as it is; `insertFails` is any other error of the insert.
     */
    method InsertDefault(u: AuthUser, insertFails: bool)
      modifies this
      ensures u.id in old(profiles) || insertFails ==> profiles == old(profiles)
      ensures u.id !in old(profiles) && !insertFails ==> profiles == old(profiles)[u.id := NewProfile(u)]
    {
      if u.id !in profiles && !insertFails {
        profiles := profiles[u.id := NewProfile(u)];
      }
    }
  }
}
