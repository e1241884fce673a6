/**
 * The sign-up form: the two password entries must agree and be long
 * enough before anything is sent; the form's names and phone travel as the
 * new account's metadata; the outcome picks the message and the next page.
 */
module Registration {
  import opened Wrappers
  import opened JsText
  import opened Accounts
  import Http
  import ChangePassword

  datatype RegisterField = Email | Password | ConfirmPassword | FullName | FullNameAr | Phone

  /** What `signUp` is called with. */
  datatype SignUpRequest = SignUpRequest(
    email: string, password: string, metaFullName: string, metaFullNameAr: string, metaPhone: string)

  /** The sign-up call's outcome: an error, a user whose e-mail is or is not confirmed, no user, or an exception. */
  datatype SignUpOutcome = SignUpError(message: string) | Confirmed | Unconfirmed | NoUser | Threw

  datatype Toast = ErrorToast(text: string) | SuccessToast(text: string)

  const MismatchText := "كلمات المرور غير متطابقة"
  const TooShortText := "كلمة المرور يجب أن تكون 6 أحرف على الأقل"
  const DuplicateText := "هذا البريد الإلكتروني مسجل مسبقاً"
  const UnexpectedText := "حدث خطأ غير متوقع. يرجى المحاولة مرة أخرى"
  const ConfirmedText := "تم إنشاء حسابك بنجاح!"
  const UnconfirmedText := "تم إنشاء حسابك! يرجى التحقق من بريدك الإلكتروني لتأكيد الحساب"
  const ConfirmRoute := "/auth/login?message=تحقق من بريدك الإلكتروني لتأكيد حسابك"

  /** The message for a sign-up error: the duplicate-address case in Arabic, any other message verbatim. */
  function ErrorText(message: string): (text: string)
    ensures message == "User already registered" ==> text == "خطأ في إنشاء الحساب: " + DuplicateText
    ensures message != "User already registered" ==> text == "خطأ في إنشاء الحساب: " + message
  {
    "خطأ في إنشاء الحساب: " + (if message == "User already registered" then DuplicateText else message)
  }

  /** The account the sign-up creates, as the callback and the dashboard later see it. */
  function NewAccount(id: string, r: SignUpRequest): AuthUser {
    AuthUser(id, Some(r.email), Some(r.metaFullName), Some(r.metaFullNameAr), Some(r.metaPhone))
  }

  /**
   * The profile later created for a new account carries the form's entries:
   * the full name when one was typed (else the part of the address before
   * '@'), the Arabic name as typed, and the phone when one was typed.
   */
  lemma RegisteredProfile(id: string, r: SignUpRequest)
    ensures var p := NewProfile(NewAccount(id, r));
      && p.id == id && p.role == "user"
      && (r.metaFullName != "" ==> p.fullName == r.metaFullName)
      && (r.metaFullName == "" ==> p.fullName == BeforeFirst(r.email, '@'))
      && p.fullNameAr == Some(r.metaFullNameAr)
      && (p.phone.Some? <==> r.metaPhone != "")
  {
  }

  /** A password the sign-up form accepts also meets the password-change endpoint's length rule. */
  lemma SameLengthRule(current: string, password: string)
    requires current != "" && JsLength(password) >= 6
    ensures ChangePassword.BodyRejection(ChangePassword.PasswordBody(Http.Str(current), Http.Str(password))).None?
  {
    assert password != "";
  }

  class RegisterForm {
    var email: string
    var password: string
    var confirmPassword: string
    var fullName: string
    var fullNameAr: string
    var phone: string
    var isLoading: bool

    constructor ()
      ensures email == "" && password == "" && confirmPassword == ""
      ensures fullName == "" && fullNameAr == "" && phone == "" && !isLoading
    {
      email, password, confirmPassword := "", "", "";
      fullName, fullNameAr, phone := "", "", "";
      isLoading := false;
    }

    /** `handleChange`: the named entry takes the typed value; nothing else changes. */
    method HandleChange(field: RegisterField, value: string)
      modifies this
      ensures email == (if field == Email then value else old(email))
      ensures password == (if field == Password then value else old(password))
      ensures confirmPassword == (if field == ConfirmPassword then value else old(confirmPassword))
      ensures fullName == (if field == FullName then value else old(fullName))
      ensures fullNameAr == (if field == FullNameAr then value else old(fullNameAr))
      ensures phone == (if field == Phone then value else old(phone))
      ensures isLoading == old(isLoading)
    {
      match field {
        case Email => email := value;
        case Password => password := value;
        case ConfirmPassword => confirmPassword := value;
        case FullName => fullName := value;
        case FullNameAr => fullNameAr := value;
        case Phone => phone := value;
      }
    }

    /**
     * `handleSubmit`, `outcome` being what the sign-up call returns. Answers
     * the request sent (if any), the toast shown and the page navigated to.
     */
    method Submit(outcome: SignUpOutcome) returns (sent: Option<SignUpRequest>, toast: Option<Toast>, route: Option<string>)
      modifies this
      ensures !isLoading
      ensures email == old(email) && password == old(password) && confirmPassword == old(confirmPassword)
      ensures fullName == old(fullName) && fullNameAr == old(fullNameAr) && phone == old(phone)
      ensures old(password) != old(confirmPassword) ==>
        sent.None? && toast == Some(ErrorToast(MismatchText)) && route.None?
      ensures old(password) == old(confirmPassword) && JsLength(old(password)) < 6 ==>
        sent.None? && toast == Some(ErrorToast(TooShortText)) && route.None?
      ensures old(password) == old(confirmPassword) && JsLength(old(password)) >= 6 ==>
        sent == Some(SignUpRequest(old(email), old(password), old(fullName), old(fullNameAr), old(phone)))
        && match outcome
           case SignUpError(m) => toast == Some(ErrorToast(ErrorText(m))) && route.None?
           case Confirmed => toast == Some(SuccessToast(ConfirmedText)) && route == Some("/dashboard")
           case Unconfirmed => toast == Some(SuccessToast(UnconfirmedText)) && route == Some(ConfirmRoute)
           case NoUser => toast.None? && route.None?
           case Threw => toast == Some(ErrorToast(UnexpectedText)) && route.None?
    {
      isLoading := true;
      if password != confirmPassword {
        isLoading := false;
        return None, Some(ErrorToast(MismatchText)), None;
      }
      if JsLength(password) < 6 {
        isLoading := false;
        return None, Some(ErrorToast(TooShortText)), None;
      }
      sent := Some(SignUpRequest(email, password, fullName, fullNameAr, phone));
      match outcome {
        case SignUpError(m) =>
          toast, route := Some(ErrorToast(ErrorText(m))), None;
        case Confirmed =>
          toast, route := Some(SuccessToast(ConfirmedText)), Some("/dashboard");
        case Unconfirmed =>
          toast, route := Some(SuccessToast(UnconfirmedText)), Some(ConfirmRoute);
        case NoUser =>
          toast, route := None, None;
        case Threw =>
          toast, route := Some(ErrorToast(UnexpectedText)), None;
      }
      isLoading := false;
    }
  }
}
