/**
 * The sign-in page (src/pages/settings/user/login.jsx): the submit
 * predicates, the SMS countdown, the input sanitisers, and the guards and
 * error texts of the three handlers. SDK calls are replaced by their outcome.
 */
module Login {
  import opened Wrappers
  import opened JsText
  import AuthReply
  import Register

  const CountdownSeconds: nat := 60
  const CodeLength: nat := 6
  const NotRegisteredCode: int := 101
  const SendCodeFailureText: string := "验证码发送失败，请稍后重试"
  const NotRegisteredText: string := "该手机号未注册，请先注册"
  const PhoneLoginFailureText: string := "登录失败，请检查验证码"
  const PasswordLoginFailureText: string := "用户名或密码错误"
  const HomePath: string := "/"

  datatype Method = PasswordLogin | PhoneLogin

  /** `v.replace(/\D/g, '').slice(0, 6)`. */
  function SanitizeCode(s: string): string {
    Sanitize(s, IsDigit, CodeLength)
  }

  /** The code field holds at most six digits, and sanitising it again changes nothing. */
  lemma SanitizeCodeSpec(s: string)
    ensures var c := SanitizeCode(s); |c| <= CodeLength && AllDigits(c) && SanitizeCode(c) == c
  {
    SanitizeSpec(s, IsDigit, CodeLength);
  }

  /** `navigate(returnUrl || '/')`. */
  function SuccessTarget(returnUrl: Option<string>): (r: string)
    ensures returnUrl.Some? && returnUrl.value != "" ==> r == returnUrl.value
    ensures returnUrl.None? || returnUrl.value == "" ==> r == HomePath
  {
    if returnUrl.Some? && returnUrl.value != "" then returnUrl.value else HomePath
  }

  /** The error text of a failed SMS login: 101 means the number is not registered. */
  function PhoneLoginError(t: AuthReply.Thrown): (r: string)
    ensures AuthReply.ErrorCode(t) == NotRegisteredCode ==> r == NotRegisteredText
    ensures AuthReply.ErrorCode(t) != NotRegisteredCode ==> r == AuthReply.ErrorText(t, PhoneLoginFailureText)
  {
    if AuthReply.ErrorCode(t) == NotRegisteredCode then NotRegisteredText
    else AuthReply.ErrorText(t, PhoneLoginFailureText)
  }

  /** A 101 reported only through `status` is still recognised; a failure never leaves the error empty. */
  lemma PhoneLoginErrorFacts(t: AuthReply.Thrown)
    ensures t.code == 0 && t.status == NotRegisteredCode ==> PhoneLoginError(t) == NotRegisteredText
    ensures PhoneLoginError(t) != ""
  {
  }

  class LoginForm {
    var loginMethod: Method
    var phone: string
    var code: string
    var username: string
    var password: string
    var countdown: nat
    var loading: bool
    var error: string

    constructor()
      ensures loginMethod == PasswordLogin && phone == "" && code == "" && username == "" && password == ""
      ensures countdown == 0 && !loading && error == ""
    {
      loginMethod := PasswordLogin;
      phone, code, username, password := "", "", "", "";
      countdown, loading, error := 0, false, "";
    }

    predicate IsValidPhone()
      reads this
    {
      Register.IsMobileNumber(phone)
    }

    predicate CanSendCode()
      reads this
    {
      IsValidPhone() && countdown == 0
    }

    predicate CanSubmitPhone()
      reads this
    {
      IsValidPhone() && |code| == CodeLength
    }

    predicate CanSubmitPassword()
      reads this
    {
      |username| >= 3 && |password| >= 6
    }

    /** Switching tabs clears the error. */
    method SetLoginMethod(m: Method)
      modifies this
      ensures loginMethod == m && error == ""
      ensures phone == old(phone) && code == old(code) && username == old(username) && password == old(password)
      ensures countdown == old(countdown) && loading == old(loading)
    {
      loginMethod := m;
      error := "";
    }

    method SetPhone(typed: string)
      modifies this
      ensures phone == Register.SanitizePhone(typed)
      ensures loginMethod == old(loginMethod) && code == old(code) && username == old(username)
      ensures password == old(password) && countdown == old(countdown) && loading == old(loading) && error == old(error)
    {
      phone := Register.SanitizePhone(typed);
    }

    method SetCode(typed: string)
      modifies this
      ensures code == SanitizeCode(typed)
      ensures loginMethod == old(loginMethod) && phone == old(phone) && username == old(username)
      ensures password == old(password) && countdown == old(countdown) && loading == old(loading) && error == old(error)
    {
      code := SanitizeCode(typed);
    }

    /** One second of the countdown effect: down by one while positive, never below zero. */
    method Tick()
      modifies this
      ensures countdown == if old(countdown) > 0 then old(countdown) - 1 else 0
      ensures loginMethod == old(loginMethod) && phone == old(phone) && code == old(code)
      ensures username == old(username) && password == old(password) && loading == old(loading) && error == old(error)
    {
      if countdown > 0 {
        countdown := countdown - 1;
      }
    }

    /**
     * `handleSendCode`, with whether the SMS request succeeded as input. A
     * send is attempted only for a valid number with the countdown at zero;
     * success restarts the countdown at sixty, failure shows the error.
     */
    method HandleSendCode(delivered: bool) returns (requestedFor: Option<string>)
      modifies this
      ensures requestedFor.None? <==> !old(CanSendCode())
      ensures requestedFor.None? ==> countdown == old(countdown) && error == old(error)
      ensures requestedFor.Some? ==> requestedFor.value == phone
      ensures requestedFor.Some? && delivered ==> countdown == CountdownSeconds && error == ""
      ensures requestedFor.Some? && !delivered ==> countdown == old(countdown) && error == SendCodeFailureText
      ensures !CanSendCode() || requestedFor.None? || !delivered
      ensures loginMethod == old(loginMethod) && phone == old(phone) && code == old(code)
      ensures username == old(username) && password == old(password) && loading == old(loading)
    {
      if !CanSendCode() {
        return None;
      }
      error := "";
      requestedFor := Some(phone);
      if delivered {
        countdown := CountdownSeconds;
      } else {
        error := SendCodeFailureText;
      }
    }

    /** `handlePhoneLogin`: guarded by `CanSubmitPhone` and `loading`; 101 maps to the not-registered text. */
    method HandlePhoneLogin(outcome: AuthReply.Outcome, returnUrl: Option<string>)
      returns (attempted: bool, navigateTo: Option<string>)
      modifies this
      ensures attempted <==> old(CanSubmitPhone()) && !old(loading)
      ensures !attempted ==> navigateTo.None? && loading == old(loading) && error == old(error)
      ensures attempted ==> !loading
      ensures attempted && AuthReply.Settle(outcome).None? ==>
        navigateTo == Some(SuccessTarget(returnUrl)) && error == ""
      ensures attempted && AuthReply.Settle(outcome).Some? ==>
        navigateTo.None? && error == PhoneLoginError(AuthReply.Settle(outcome).value)
      ensures loginMethod == old(loginMethod) && phone == old(phone) && code == old(code)
      ensures username == old(username) && password == old(password) && countdown == old(countdown)
    {
      if !CanSubmitPhone() || loading {
        return false, None;
      }
      attempted := true;
      error := "";
      loading := true;
      match AuthReply.Settle(outcome) {
        case None =>
          navigateTo := Some(SuccessTarget(returnUrl));
        case Some(t) =>
          error := PhoneLoginError(t);
          navigateTo := None;
      }
      loading := false;
    }

    /** `handlePasswordLogin`: guarded by `CanSubmitPassword` and `loading`. */
    method HandlePasswordLogin(outcome: AuthReply.Outcome, returnUrl: Option<string>)
      returns (attempted: bool, navigateTo: Option<string>)
      modifies this
      ensures attempted <==> old(CanSubmitPassword()) && !old(loading)
      ensures !attempted ==> navigateTo.None? && loading == old(loading) && error == old(error)
      ensures attempted ==> !loading
      ensures attempted && AuthReply.Settle(outcome).None? ==>
        navigateTo == Some(SuccessTarget(returnUrl)) && error == ""
      ensures attempted && AuthReply.Settle(outcome).Some? ==>
        navigateTo.None? && error == AuthReply.ErrorText(AuthReply.Settle(outcome).value, PasswordLoginFailureText)
      ensures loginMethod == old(loginMethod) && phone == old(phone) && code == old(code)
      ensures username == old(username) && password == old(password) && countdown == old(countdown)
    {
      if !CanSubmitPassword() || loading {
        return false, None;
      }
      attempted := true;
      error := "";
      loading := true;
      match AuthReply.Settle(outcome) {
        case None =>
          navigateTo := Some(SuccessTarget(returnUrl));
        case Some(t) =>
          error := AuthReply.ErrorText(t, PasswordLoginFailureText);
          navigateTo := None;
      }
      loading := false;
    }
  }
}
