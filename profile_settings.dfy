/**
 * The dashboard's profile tab: a profile form and a password form, each a
 * record of text fields edited one field at a time. Saving sends the whole
 * profile form to the update endpoint; changing the password first checks
 * on the client that the two new entries agree and are long enough.
 */
module ProfileSettings {
  import opened Wrappers
  import opened JsText
  import opened Http
  import opened Accounts
  import ProfileUpdate
  import ChangePassword

  datatype FormField = FullName | FullNameAr | PhoneField
  datatype PasswordField = Current | New | Confirm

  datatype ClientCheck = PasswordsDiffer | PasswordTooShort | Passes

  const Mismatch := "كلمات المرور الجديدة غير متطابقة"
  const TooShortText := "كلمة المرور الجديدة يجب أن تكون 6 أحرف على الأقل"

  /** `handleChangePassword`'s two checks, in order: the entries must agree, then be long enough. */
  function CheckPasswords(newPassword: string, confirmPassword: string): (c: ClientCheck)
    ensures c == PasswordsDiffer <==> newPassword != confirmPassword
    ensures c == PasswordTooShort <==> newPassword == confirmPassword && JsLength(newPassword) < ChangePassword.MinLength
    ensures c == Passes <==> newPassword == confirmPassword && JsLength(newPassword) >= ChangePassword.MinLength
  {
    if newPassword != confirmPassword then PasswordsDiffer
    else if JsLength(newPassword) < ChangePassword.MinLength then PasswordTooShort
    else Passes
  }

  /** The body the password form sends (`confirmPassword` goes along and the server ignores it). */
  function PasswordRequest(current: string, newPassword: string): ChangePassword.PasswordBody {
    ChangePassword.PasswordBody(Str(current), Str(newPassword))
  }

  /**
   * A request that passed the client's checks also passes the server's body
   * checks, unless the current-password entry was left empty.
   */
  lemma ClientCheckImpliesServerCheck(current: string, newPassword: string, confirmPassword: string)
    requires CheckPasswords(newPassword, confirmPassword) == Passes
    ensures current != "" ==> ChangePassword.BodyRejection(PasswordRequest(current, newPassword)).None?
    ensures current == "" ==> ChangePassword.BodyRejection(PasswordRequest(current, newPassword)) == Some(ChangePassword.MissingPasswords)
  {
    assert newPassword != "";
  }

  /** The profile form's body: every field is sent, as a string. */
  function ProfileRequest(fullName: string, fullNameAr: string, phone: string): ProfileUpdate.UpdateBody {
    ProfileUpdate.UpdateBody(Str(fullName), Str(fullNameAr), Str(phone))
  }

  /** The form's starting values: `user.field || ''`. */
  function InitialForm(p: Profile): (form: (string, string, string))
    ensures form.0 == p.fullName
    ensures form.1 == (if p.fullNameAr.Some? then p.fullNameAr.value else "")
    ensures form.2 == (if p.phone.Some? then p.phone.value else "")
  {
    (p.fullName, p.fullNameAr.GetOr(""), p.phone.GetOr(""))
  }

  /** An optional text field filled from a tidy stored value (or `''`) reads back as that value. */
  lemma StoredFieldRoundTrip(o: Option<string>)
    requires o.Some? ==> o.value != "" && Trim(o.value) == o.value
    ensures ProfileUpdate.TrimmedOrNull(Str(o.GetOr(""))) == o
  {
    if o.None? {
      assert AllWhitespace("");
    }
  }

  /** Saving the form untouched leaves a tidy profile as it was, apart from its update time. */
  lemma SavingUntouchedFormChangesNothing(p: Profile, now: string)
    requires ProfileUpdate.Tidy(p)
    ensures var form := InitialForm(p);
      ProfileUpdate.Apply(p, ProfileUpdate.UpdateData(ProfileRequest(form.0, form.1, form.2), now))
      == p.(updatedAt := Some(now))
  {
    var form := InitialForm(p);
    var c := ProfileUpdate.UpdateData(ProfileRequest(form.0, form.1, form.2), now);
    StoredFieldRoundTrip(p.fullNameAr);
    StoredFieldRoundTrip(p.phone);
    assert c.fullName.GetOr(p.fullName) == p.fullName;
    assert c.fullNameAr == Some(p.fullNameAr);
    assert c.phone == Some(p.phone);
  }

  class SettingsForm {
    var fullName: string
    var fullNameAr: string
    var phone: string
    var currentPassword: string
    var newPassword: string
    var confirmPassword: string
    var isEditing: bool
    var isLoading: bool
    var showPasswordSection: bool

    constructor (p: Profile)
      ensures (fullName, fullNameAr, phone) == InitialForm(p)
      ensures currentPassword == "" && newPassword == "" && confirmPassword == ""
      ensures !isEditing && !isLoading && !showPasswordSection
    {
      var form := InitialForm(p);
      fullName, fullNameAr, phone := form.0, form.1, form.2;
      currentPassword, newPassword, confirmPassword := "", "", "";
      isEditing, isLoading, showPasswordSection := false, false, false;
    }

    /** `handleChange`: the named field takes the typed value; nothing else changes. */
    method HandleChange(field: FormField, value: string)
      modifies this
      ensures fullName == (if field == FullName then value else old(fullName))
      ensures fullNameAr == (if field == FullNameAr then value else old(fullNameAr))
      ensures phone == (if field == PhoneField then value else old(phone))
      ensures currentPassword == old(currentPassword) && newPassword == old(newPassword)
      ensures confirmPassword == old(confirmPassword)
      ensures isEditing == old(isEditing) && isLoading == old(isLoading)
      ensures showPasswordSection == old(showPasswordSection)
    {
      match field {
        case FullName => fullName := value;
        case FullNameAr => fullNameAr := value;
        case PhoneField => phone := value;
      }
    }

    /** `handlePasswordChange`: the named password entry takes the typed value; nothing else changes. */
    method HandlePasswordChange(field: PasswordField, value: string)
      modifies this
      ensures currentPassword == (if field == Current then value else old(currentPassword))
      ensures newPassword == (if field == New then value else old(newPassword))
      ensures confirmPassword == (if field == Confirm then value else old(confirmPassword))
      ensures fullName == old(fullName) && fullNameAr == old(fullNameAr) && phone == old(phone)
      ensures isEditing == old(isEditing) && isLoading == old(isLoading)
      ensures showPasswordSection == old(showPasswordSection)
    {
      match field {
        case Current => currentPassword := value;
        case New => newPassword := value;
        case Confirm => confirmPassword := value;
      }
    }

    /**
     * `handleSaveProfile`: sends the form; `ok` is whether the response was
     * 2xx. Success leaves edit mode (the page then reloads).
     */
    method SaveProfile(ok: bool) returns (sent: ProfileUpdate.UpdateBody)
      modifies this
      ensures sent == ProfileRequest(old(fullName), old(fullNameAr), old(phone))
      ensures isEditing == (if ok then false else old(isEditing))
      ensures !isLoading
      ensures fullName == old(fullName) && fullNameAr == old(fullNameAr) && phone == old(phone)
      ensures currentPassword == old(currentPassword) && newPassword == old(newPassword)
      ensures confirmPassword == old(confirmPassword) && showPasswordSection == old(showPasswordSection)
    {
      isLoading := true;
      sent := ProfileRequest(fullName, fullNameAr, phone);
      if ok {
        isEditing := false;
      }
      isLoading := false;
    }

    /**
     * `handleChangePassword`. A failed client check shows its message and
     * sends nothing; otherwise the request goes out and, when `ok`, all
     * three entries are cleared and the section closes.
     */
    method SubmitPassword(ok: bool) returns (sent: Option<ChangePassword.PasswordBody>, error: Option<string>)
      modifies this
      ensures var check := CheckPasswords(old(newPassword), old(confirmPassword));
        && (check == PasswordsDiffer ==> sent.None? && error == Some(Mismatch))
        && (check == PasswordTooShort ==> sent.None? && error == Some(TooShortText))
        && (check == Passes ==> sent == Some(PasswordRequest(old(currentPassword), old(newPassword))))
      ensures sent.None? || !ok ==>
        currentPassword == old(currentPassword) && newPassword == old(newPassword)
        && confirmPassword == old(confirmPassword) && showPasswordSection == old(showPasswordSection)
      ensures sent.Some? && ok ==>
        currentPassword == "" && newPassword == "" && confirmPassword == "" && !showPasswordSection
      ensures fullName == old(fullName) && fullNameAr == old(fullNameAr) && phone == old(phone)
      ensures isEditing == old(isEditing)
      ensures sent.Some? ==> !isLoading
      ensures sent.None? ==> isLoading == old(isLoading)
    {
      var check := CheckPasswords(newPassword, confirmPassword);
      if check == PasswordsDiffer {
        return None, Some(Mismatch);
      }
      if check == PasswordTooShort {
        return None, Some(TooShortText);
      }
      isLoading := true;
      sent := Some(PasswordRequest(currentPassword, newPassword));
      error := None;
      if ok {
        currentPassword, newPassword, confirmPassword := "", "", "";
        showPasswordSection := false;
      }
      isLoading := false;
    }
  }
}
