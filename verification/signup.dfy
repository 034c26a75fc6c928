/**
 * The sign-up page's submit handler: the two password checks, in order,
 * before the account is created.
 */
module Signup {
  import opened Base

  const MSG_SHORT := "Password must be at least 6 characters long"
  const MSG_MISMATCH := "Passwords do not match"
  const MSG_FAILED := "Failed to create account"

  /** The page after a submit: the error shown, whether `signup` was called, and whether it navigated home. */
  datatype SignupView = SignupView(error: Option<string>, called: bool, navigated: bool)

  /**
   * `handleSubmit`: a password under six characters is refused first, then a
   * confirmation that differs; only then is the account created, and its
   * failure (`Some(message)`, "" for none) is shown.
   */
  function HandleSubmit(password: string, confirm: string, failure: Option<string>): (r: SignupView)
    ensures |password| < 6 ==> r == SignupView(Some(MSG_SHORT), false, false)
    ensures |password| >= 6 && password != confirm ==> r == SignupView(Some(MSG_MISMATCH), false, false)
    ensures r.called && failure.Some? ==> r.error == Some(if failure.value != "" then failure.value else MSG_FAILED)
    ensures r.called && failure.None? ==> r.error.None? && r.navigated
  {
    if |password| < 6 then SignupView(Some(MSG_SHORT), false, false)
    else if password != confirm then SignupView(Some(MSG_MISMATCH), false, false)
    else
      match failure
      case None => SignupView(None, true, true)
      case Some(msg) => SignupView(Some(if msg != "" then msg else MSG_FAILED), true, false)
  }

  /** The account is created exactly when both checks pass, and it navigates only on success. */
  lemma CalledIffValid(password: string, confirm: string, failure: Option<string>)
    ensures HandleSubmit(password, confirm, failure).called <==> |password| >= 6 && password == confirm
    ensures HandleSubmit(password, confirm, failure).navigated <==> |password| >= 6 && password == confirm && failure.None?
    ensures HandleSubmit(password, confirm, failure).error.None? <==> HandleSubmit(password, confirm, failure).navigated
  {
  }
}
