/**
 * The registration form (src/pages/settings/user/register.jsx): the field
 * validators, the `onChange` sanitisers, the parameters sent to the account
 * SDK and the state changes of `handleRegister`.
 */
module Register {
  import opened Wrappers
  import opened JsText
  import AuthReply

  const MaxUsernameLength: nat := 20
  const MinUsernameLength: nat := 3
  const MinPasswordLength: nat := 6
  const PhoneLength: nat := 11
  const EmailDomain: string := "@temp.com"
  const SuccessText: string := "注册成功！正在跳转..."
  const FailureText: string := "注册失败，请稍后重试"
  const LoginPath: string := "/login"

  /** `[a-zA-Z0-9_]` (ASCII only). */
  predicate IsUsernameChar(c: char) {
    'a' <= c <= 'z' || 'A' <= c <= 'Z' || '0' <= c <= '9' || c == '_'
  }

  predicate IsValidUsername(u: string) {
    MinUsernameLength <= |u| <= MaxUsernameLength && forall i :: 0 <= i < |u| ==> IsUsernameChar(u[i])
  }

  predicate IsValidPassword(p: string) {
    |p| >= MinPasswordLength
  }

  /** `/^1[3-9]\d{9}$/`: eleven ASCII digits, a 1 and then 3 to 9 in front. */
  predicate IsMobileNumber(p: string) {
    |p| == PhoneLength && p[0] == '1' && '3' <= p[1] <= '9' && AllDigits(p[2..])
  }

  /** The phone is optional here: empty, or a mobile number. */
  predicate IsValidPhone(p: string) {
    p == "" || IsMobileNumber(p)
  }

  predicate CanSubmit(username: string, password: string, confirmPassword: string, phone: string) {
    IsValidUsername(username) && IsValidPassword(password) && password == confirmPassword && IsValidPhone(phone)
  }

  /** `v.replace(/[^a-zA-Z0-9_]/g, '').slice(0, 20)`. */
  function SanitizeUsername(s: string): string {
    Sanitize(s, IsUsernameChar, MaxUsernameLength)
  }

  /** `v.replace(/\D/g, '').slice(0, 11)`. */
  function SanitizePhone(s: string): string {
    Sanitize(s, IsDigit, PhoneLength)
  }

  /**
   * The sanitised username keeps only allowed characters, at most twenty of
   * them; sanitising is idempotent and leaves a valid name untouched, so the
   * field holds a valid name exactly when it has at least three characters.
   */
  lemma SanitizeUsernameSpec(s: string)
    ensures var u := SanitizeUsername(s);
      |u| <= MaxUsernameLength && (forall i :: 0 <= i < |u| ==> IsUsernameChar(u[i]))
      && SanitizeUsername(u) == u
      && (IsValidUsername(u) <==> |u| >= MinUsernameLength)
    ensures IsValidUsername(s) ==> SanitizeUsername(s) == s
  {
    SanitizeSpec(s, IsUsernameChar, MaxUsernameLength);
    if IsValidUsername(s) {
      SanitizeKeepsValid(s, IsUsernameChar, MaxUsernameLength);
    }
  }

  /** The sanitised phone is at most eleven digits, sanitising is idempotent, and a typed mobile number survives. */
  lemma SanitizePhoneSpec(s: string)
    ensures var p := SanitizePhone(s);
      |p| <= PhoneLength && AllDigits(p) && SanitizePhone(p) == p
    ensures IsMobileNumber(s) ==> SanitizePhone(s) == s
  {
    SanitizeSpec(s, IsDigit, PhoneLength);
    if IsMobileNumber(s) {
      assert forall i :: 2 <= i < |s| ==> s[i] == s[2..][i - 2];
      SanitizeKeepsValid(s, IsDigit, PhoneLength);
    }
  }

  /** The record passed to `Bmob.User.register`. */
  datatype RegisterParams = RegisterParams(
    username: string, password: string, email: string,
    currentInvites: int, remainingReport: int, level: int,
    phone: Option<string>)

  function ParamsFor(username: string, password: string, phone: string): (r: RegisterParams)
    ensures r.username == username && r.password == password
    ensures r.currentInvites == 0 && r.remainingReport == 2 && r.level == 0
    ensures r.phone.Some? <==> phone != ""
    ensures r.phone.Some? ==> r.phone.value == phone
  {
    RegisterParams(username, password, username + EmailDomain, 0, 2, 0,
                   if phone != "" then Some(phone) else None)
  }

  /** The placeholder e-mail ends in the fixed domain and gives the username back. */
  lemma EmailCarriesUsername(username: string, password: string, phone: string)
    ensures var e := ParamsFor(username, password, phone).email;
      |e| == |username| + |EmailDomain| && e[..|username|] == username && e[|username|..] == EmailDomain
  {
  }

  /** `/login`, carrying the encoded `returnUrl` when there is one; `encode` is `encodeURIComponent`. */
  function LoginLink(returnUrl: Option<string>, encode: string -> string): (r: string)
    ensures returnUrl.None? || returnUrl.value == "" ==> r == LoginPath
    ensures returnUrl.Some? && returnUrl.value != "" ==> r == LoginPath + "?returnUrl=" + encode(returnUrl.value)
  {
    if returnUrl.Some? && returnUrl.value != "" then LoginPath + "?returnUrl=" + encode(returnUrl.value)
    else LoginPath
  }

  class RegisterForm {
    var username: string
    var password: string
    var confirmPassword: string
    var phone: string
    var loading: bool
    var error: string
    var success: string

    constructor()
      ensures username == "" && password == "" && confirmPassword == "" && phone == ""
      ensures !loading && error == "" && success == ""
    {
      username, password, confirmPassword, phone := "", "", "", "";
      loading, error, success := false, "", "";
    }

    method SetUsername(typed: string)
      modifies this
      ensures username == SanitizeUsername(typed)
      ensures password == old(password) && confirmPassword == old(confirmPassword) && phone == old(phone)
      ensures loading == old(loading) && error == old(error) && success == old(success)
    {
      username := SanitizeUsername(typed);
    }

    method SetPhone(typed: string)
      modifies this
      ensures phone == SanitizePhone(typed)
      ensures username == old(username) && password == old(password) && confirmPassword == old(confirmPassword)
      ensures loading == old(loading) && error == old(error) && success == old(success)
    {
      phone := SanitizePhone(typed);
    }

    /**
     * `handleRegister`, with the SDK's outcome as input: nothing happens when
     * the form cannot be submitted or a request is running. Otherwise the
     * parameters are sent; success shows the success text and leads to the
     * login page, failure shows the error text; loading ends false.
     */
    method HandleRegister(outcome: AuthReply.Outcome, returnUrl: Option<string>, encode: string -> string)
      returns (sent: Option<RegisterParams>, navigateTo: Option<string>)
      modifies this
      ensures sent.None? <==> !CanSubmit(old(username), old(password), old(confirmPassword), old(phone)) || old(loading)
      ensures sent.None? ==>
        navigateTo.None? && loading == old(loading) && error == old(error) && success == old(success)
      ensures sent.Some? ==> sent.value == ParamsFor(username, password, phone) && !loading
      ensures sent.Some? && AuthReply.Settle(outcome).None? ==>
        success == SuccessText && error == "" && navigateTo == Some(LoginLink(returnUrl, encode))
      ensures sent.Some? && AuthReply.Settle(outcome).Some? ==>
        success == "" && navigateTo.None? && error == AuthReply.ErrorText(AuthReply.Settle(outcome).value, FailureText)
      ensures username == old(username) && password == old(password)
      ensures confirmPassword == old(confirmPassword) && phone == old(phone)
    {
      if !CanSubmit(username, password, confirmPassword, phone) || loading {
        return None, None;
      }
      error := "";
      success := "";
      loading := true;
      var params := ParamsFor(username, password, phone);
      sent := Some(params);
      match AuthReply.Settle(outcome) {
        case None =>
          success := SuccessText;
          navigateTo := Some(LoginLink(returnUrl, encode));
        case Some(t) =>
          error := AuthReply.ErrorText(t, FailureText);
          navigateTo := None;
      }
      loading := false;
    }
  }
}
