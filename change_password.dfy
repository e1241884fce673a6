/**
 * `PUT /api/profile/change-password`: cheap checks on the body first, then
 * the session, then re-verification of the current password, and only then
 * the update. The credential store is a map from user id to password;
 * "signing in with the current password" is a lookup in it.
 */
module ChangePassword {
  import opened Wrappers
  import opened JsText
  import opened Http

  datatype PasswordBody = PasswordBody(currentPassword: Field, newPassword: Field)

  /** The signed-in user as this endpoint sees it. */
  datatype Session = Session(id: string, email: Option<string>)

  const MissingPasswords := Reply(400, "يرجى إدخال كلمة المرور الحالية والجديدة")
  const TooShort := Reply(400, "كلمة المرور الجديدة يجب أن تكون 6 أحرف على الأقل")
  const WrongPassword := Reply(400, "كلمة المرور الحالية غير صحيحة")
  const UpdateFailed := Reply(500, "فشل في تغيير كلمة المرور")
  const Changed := Reply(200, "Password updated successfully")

  /** The minimum length, counted in UTF-16 code units as `String.prototype.length` does. */
  const MinLength := 6

  /**
   * The checks that need no storage, in the handler's order: `None` when
   * the body passes them, else the reply it gets.
   */
  function BodyRejection(b: PasswordBody): (r: Option<Reply>)
    ensures r == Some(MissingPasswords) <==> !Given(b.currentPassword) || !Given(b.newPassword)
    ensures r == Some(TooShort) <==>
      Given(b.currentPassword) && Given(b.newPassword) && JsLength(b.newPassword.text) < MinLength
    ensures r.None? <==>
      Given(b.currentPassword) && Given(b.newPassword) && JsLength(b.newPassword.text) >= MinLength
  {
    if !Given(b.currentPassword) || !Given(b.newPassword) then Some(MissingPasswords)
    else if JsLength(b.newPassword.text) < MinLength then Some(TooShort)
    else None
  }

  /** A session the handler accepts: no lookup error, a user, and a non-empty e-mail to sign in with. */
  predicate Authenticated(session: Option<Session>, authFails: bool) {
    !authFails && session.Some? && session.value.email.Some? && session.value.email.value != ""
  }

  /** Characters above U+FFFF count twice: three of them already meet the minimum. */
  lemma AstralCharactersCountTwice()
    ensures JsLength("\U{1F511}\U{1F511}\U{1F511}") == MinLength
  {
  }

  class CredentialStore {
    var passwords: map<string, string>

    constructor (initial: map<string, string>)
      ensures passwords == initial
    {
      passwords := initial;
    }

    /**
     * One request. `body` is `None` when the body is
     * `null` or not valid JSON, whose destructuring throws (any other value,
     * such as a number or an array, gives all-absent fields);
     * `authFails` is the session lookup's error and `updateFails` the
     * password update's.
     */
    method Change(body: Option<PasswordBody>, session: Option<Session>, authFails: bool, updateFails: bool)
      returns (reply: Reply)
      modifies this
      ensures body.None? ==> reply == InternalError && passwords == old(passwords)
      ensures body.Some? && BodyRejection(body.value).Some? ==>
        reply == BodyRejection(body.value).value && passwords == old(passwords)
      ensures body.Some? && BodyRejection(body.value).None? && !Authenticated(session, authFails) ==>
        reply == Unauthorized && passwords == old(passwords)
      ensures body.Some? && BodyRejection(body.value).None? && Authenticated(session, authFails) ==>
        var id := session.value.id;
        var current := body.value.currentPassword.text;
        if id !in old(passwords) || old(passwords)[id] != current then
          reply == WrongPassword && passwords == old(passwords)
        else if updateFails then
          reply == UpdateFailed && passwords == old(passwords)
        else
          reply == Changed && passwords == old(passwords)[id := body.value.newPassword.text]
    {
      if body.None? {
        return InternalError;
      }
      var rejection := BodyRejection(body.value);
      if rejection.Some? {
        return rejection.value;
      }
      if !Authenticated(session, authFails) {
        return Unauthorized;
      }
      var id := session.value.id;
      if id !in passwords || passwords[id] != body.value.currentPassword.text {
        return WrongPassword;
      }
      if updateFails {
        return UpdateFailed;
      }
      passwords := passwords[id := body.value.newPassword.text];
      return Changed;
    }
  }
}
