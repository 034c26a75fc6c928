/**
 * The login page's submit handler: the error text shown for a failed
 * sign-in, chosen from the error's code when it has one, and the loading
 * flag, cleared however the attempt ends.
 */
module Login {
  import opened Base

  const MSG_DEFAULT := "登录失败，请检查您的邮箱和密码"
  const MSG_UNKNOWN_CODE := "登录失败，请稍后再试"
  const DASHBOARD := "/dashboard"

  /** A thrown error's `code` and `message`; "" stands for a missing or empty one. */
  datatype AuthError = AuthError(code: string, message: string)

  /** The six codes with a fixed message, and their messages. */
  const KNOWN_CODES: map<string, string> := map[
    "auth/user-not-found" := "用户不存在",
    "auth/wrong-password" := "密码错误",
    "auth/invalid-email" := "邮箱格式不正确",
    "auth/network-request-failed" := "网络请求失败，请检查网络连接",
    "auth/too-many-requests" := "请求次数过多，请稍后再试",
    "auth/operation-not-allowed" := "该操作未被允许，登录方式可能已禁用"]

  /** The message for a failed sign-in. */
  function ErrorMessage(e: AuthError): (r: string)
    ensures e.code in KNOWN_CODES ==> r == KNOWN_CODES[e.code]
    ensures e.code != "" && e.code !in KNOWN_CODES ==> r == (if e.message != "" then e.message else MSG_UNKNOWN_CODE)
    ensures e.code == "" ==> r == (if e.message != "" then e.message else MSG_DEFAULT)
  {
    if e.code != "" then
      if e.code in KNOWN_CODES then KNOWN_CODES[e.code]
      else if e.message != "" then e.message
      else MSG_UNKNOWN_CODE
    else if e.message != "" then e.message
    else MSG_DEFAULT
  }

  /** The page after a submit: the error and success texts, the loading flag and where it navigated. */
  datatype LoginView = LoginView(error: string, success: string, loading: bool, navigatedTo: Option<string>)

  /** `handleSubmit`, given how the sign-in call ended: `None` for success. */
  function HandleSubmit(outcome: Option<AuthError>): (r: LoginView)
    ensures !r.loading && r.success == ""
    ensures outcome.None? <==> r.navigatedTo == Some(DASHBOARD)
    ensures outcome.None? ==> r.error == ""
    ensures outcome.Some? ==> r.error == ErrorMessage(outcome.value) && r.navigatedTo.None?
  {
    match outcome
    case None => LoginView("", "", false, Some(DASHBOARD))
    case Some(e) => LoginView(ErrorMessage(e), "", false, None)
  }

  /** A failed sign-in always shows some text, and distinct known codes show distinct texts. */
  lemma FailureAlwaysExplained(e: AuthError, f: AuthError)
    ensures HandleSubmit(Some(e)).error != ""
    ensures e.code in KNOWN_CODES && f.code in KNOWN_CODES && e.code != f.code ==> ErrorMessage(e) != ErrorMessage(f)
  {
  }
}
