/**
 * The sign-up page of management-frontend/src/pages/Signup.jsx and the
 * `signup` of management-frontend/src/context/AuthContext.jsx it calls:
 * whether the form is offered at all, the order in which the form is
 * checked, the body sent, and what the page shows or does with the
 * answer.
 */
module SignupPage {
  import opened Wrappers
  import opened Domain
  import opened Store
  import Text
  import UserController
  import AuthController

  const AdminExistsNotice := "Admin account already exists. Please contact admin for access."
  const FillRequired := "Please fill in all required fields"
  const PasswordsDiffer := "Passwords do not match"
  const PasswordTooShort := "Password must be at least 6 characters"
  const AgreeToTerms := "Please agree to the Terms of use and Privacy Policy"
  const SignupFailed := "Signup failed"
  const SignupFailedRetry := "Signup failed. Please try again."

  datatype Fields = Fields(firstName: string, lastName: string, email: string, password: string, confirmPassword: string)

  const Empty := Fields("", "", "", "", "")

  /** `handleSubmit`'s checks in order: every required field, then the
      confirmation, then the length, then the terms; the first that fails
      names the message, and `None` lets the form through. */
  function Check(f: Fields, agreeTerms: bool): (r: Option<string>)
    ensures r.None? <==>
              && f.firstName != "" && f.lastName != "" && f.email != "" && f.password != ""
              && f.password == f.confirmPassword && |f.password| >= 6 && agreeTerms
    ensures r == Some(FillRequired) <==> f.firstName == "" || f.lastName == "" || f.email == "" || f.password == ""
    ensures r == Some(PasswordsDiffer) ==> f.password != f.confirmPassword
    ensures r == Some(PasswordTooShort) ==> f.password == f.confirmPassword && |f.password| < 6
    ensures r == Some(AgreeToTerms) ==> f.password == f.confirmPassword && |f.password| >= 6 && !agreeTerms
  {
    if f.firstName == "" || f.lastName == "" || f.email == "" || f.password == "" then Some(FillRequired)
    else if f.password != f.confirmPassword then Some(PasswordsDiffer)
    else if |f.password| < 6 then Some(PasswordTooShort)
    else if !agreeTerms then Some(AgreeToTerms)
    else None
  }

  /** `isFormValid`: the submit button is enabled. */
  predicate FormValid(f: Fields, agreeTerms: bool) {
    f.firstName != "" && f.lastName != "" && f.email != "" && f.password != "" && f.confirmPassword != "" && agreeTerms
  }

  /** With the button enabled the "required fields" message cannot show,
      and a form that passes the checks has its button enabled; an enabled
      button still lets through a confirmation that differs or a short
      password, for the checks to catch. */
  lemma ButtonAndChecks(f: Fields, agreeTerms: bool)
    ensures FormValid(f, agreeTerms) ==> Check(f, agreeTerms) != Some(FillRequired)
    ensures Check(f, agreeTerms).None? ==> FormValid(f, agreeTerms)
    ensures FormValid(Fields("a", "b", "c", "secret1", "secret2"), true)
    ensures Check(Fields("a", "b", "c", "secret1", "secret2"), true) == Some(PasswordsDiffer)
  {
  }

  /** The body sent: the fields without the confirmation. */
  function BodyOf(f: Fields): (b: AuthController.SignupBody)
    ensures b.firstName == f.firstName && b.lastName == f.lastName && b.email == f.email && b.password == f.password
  {
    AuthController.SignupBody(f.firstName, f.lastName, f.email, f.password)
  }

  /** What `signup` of the auth context hands back for the server's
      answer (`None` when there is no answer): success, or a message to
      show, if any. */
  datatype Outcome = Success | Failure(message: Option<string>)

  /** `signup` as written: it tests `success` on the HTTP response itself
      rather than on its body, so a successful answer is reported as a
      failure with no message; a refusal makes the request throw and hands
      back the server's message, and no answer the context's own. The
      context never reports success. */
  function OutcomeOf(answer: Option<Response<AuthController.Account>>): (o: Outcome)
    ensures o.Failure?
    ensures answer.Some? && answer.value.Ok? ==> o == Failure(None)
    ensures answer.Some? && answer.value.Fail? ==> o == Failure(Some(answer.value.message))
    ensures answer.None? ==> o == Failure(Some(SignupFailedRetry))
  {
    if answer.None? then Failure(Some(SignupFailedRetry))
    else if answer.value.Ok? then Failure(None)
    else Failure(Some(answer.value.message))
  }

  /** `signup` reading the response body, as `login` does: success exactly
      on a successful answer, and the same failures otherwise. */
  function OutcomeOfFixed(answer: Option<Response<AuthController.Account>>): (o: Outcome)
    ensures o.Success? <==> answer.Some? && answer.value.Ok?
    ensures answer.Some? && answer.value.Fail? ==> o == Failure(Some(answer.value.message))
    ensures answer.None? ==> o == Failure(Some(SignupFailedRetry))
  {
    if answer.None? then Failure(Some(SignupFailedRetry))
    else if answer.value.Ok? then Success
    else Failure(Some(answer.value.message))
  }

  /** The two readings differ exactly on a successful answer: there the
      written one reports a failure and the page shows "Signup failed". */
  lemma OutcomesDifferOnlyOnSuccess(answer: Option<Response<AuthController.Account>>)
    ensures OutcomeOf(answer) != OutcomeOfFixed(answer) <==> answer.Some? && answer.value.Ok?
    ensures answer.Some? && answer.value.Ok? ==> MessageShown(OutcomeOf(answer)) == SignupFailed
  {
  }

  /** The message the page shows for a failure: its own, or "Signup
      failed". */
  function MessageShown(o: Outcome): (m: string)
    requires o.Failure?
    ensures m != ""
    ensures o.message.Some? && o.message.value != "" ==> m == o.message.value
    ensures o.message.None? ==> m == SignupFailed
  {
    if o.message.Some? && o.message.value != "" then o.message.value else SignupFailed
  }

  class Page {
    var fields: Fields
    var agreeTerms: bool
    var error: string
    var loading: bool
    var available: bool
    /** Set once the page has moved on to the dashboard. */
    var navigated: bool

    constructor ()
      ensures fields == Empty && !agreeTerms && error == "" && !loading && available && !navigated
    {
      fields := Empty;
      agreeTerms, error, loading, available, navigated := false, "", false, true, false;
    }

    /** `checkSignupAvailability` with the server's `available` (`None`
        when the request fails, which changes nothing). */
    method CheckAvailability(reply: Option<bool>)
      modifies this
      ensures fields == old(fields) && agreeTerms == old(agreeTerms) && loading == old(loading) && navigated == old(navigated)
      ensures reply.None? ==> available == old(available) && error == old(error)
      ensures reply.Some? ==> available == reply.value && error == (if reply.value then old(error) else AdminExistsNotice)
    {
      if reply.Some? {
        available := reply.value;
        if !reply.value {
          error := AdminExistsNotice;
        }
      }
    }

    /** `handleChange`: a field changes and the error clears. */
    method Change(f: Fields)
      modifies this
      ensures fields == f && error == ""
      ensures agreeTerms == old(agreeTerms) && loading == old(loading) && available == old(available) && navigated == old(navigated)
    {
      fields := f;
      error := "";
    }

    /** The terms checkbox. */
    method SetAgree(b: bool)
      modifies this
      ensures agreeTerms == b
      ensures fields == old(fields) && error == old(error) && loading == old(loading) && available == old(available) && navigated == old(navigated)
    {
      agreeTerms := b;
    }

    /** What the page does with the context's outcome: success moves on
        to the dashboard, a failure shows its message. */
    method Finish(o: Outcome)
      modifies this
      ensures fields == old(fields) && agreeTerms == old(agreeTerms) && available == old(available) && !loading
      ensures o.Success? ==> navigated && error == old(error)
      ensures o.Failure? ==> navigated == old(navigated) && error == MessageShown(o)
    {
      if o.Success? {
        navigated := true;
      } else {
        error := MessageShown(o);
      }
      loading := false;
    }

    /** `handleSubmit` as written, with the server's answer to the request
        if one is sent: a form that fails a check shows that check's
        message and sends nothing; otherwise the body is sent and, since
        the context never reports success, the page stays, showing
        "Signup failed" even when the server created the account. */
    method Submit(answer: Option<Response<AuthController.Account>>) returns (sent: Option<AuthController.SignupBody>)
      modifies this
      ensures fields == old(fields) && agreeTerms == old(agreeTerms) && available == old(available) && !loading
      ensures navigated == old(navigated)
      ensures Check(fields, agreeTerms).Some? ==> sent == None && error == Check(fields, agreeTerms).value
      ensures Check(fields, agreeTerms).None? ==>
                && sent == Some(BodyOf(fields))
                && (answer.Some? && answer.value.Ok? ==> error == SignupFailed)
                && (answer.Some? && answer.value.Fail? ==> error == MessageShown(Failure(Some(answer.value.message))))
                && (answer.None? ==> error == SignupFailedRetry)
    {
      var problem := Check(fields, agreeTerms);
      if problem.Some? {
        error := problem.value;
        loading := false;
        return None;
      }
      loading := true;
      sent := Some(BodyOf(fields));
      Finish(OutcomeOf(answer));
    }

    /** `handleSubmit` with the context reading the response body: a
        successful answer moves on to the dashboard. */
    method SubmitFixed(answer: Option<Response<AuthController.Account>>) returns (sent: Option<AuthController.SignupBody>)
      modifies this
      ensures fields == old(fields) && agreeTerms == old(agreeTerms) && available == old(available) && !loading
      ensures Check(fields, agreeTerms).Some? ==>
                sent == None && error == Check(fields, agreeTerms).value && navigated == old(navigated)
      ensures Check(fields, agreeTerms).None? ==>
                && sent == Some(BodyOf(fields))
                && (answer.Some? && answer.value.Ok? ==> navigated && error == old(error))
                && (answer.Some? && answer.value.Fail? ==>
                      navigated == old(navigated) && error == MessageShown(Failure(Some(answer.value.message))))
                && (answer.None? ==> navigated == old(navigated) && error == SignupFailedRetry)
    {
      var problem := Check(fields, agreeTerms);
      if problem.Some? {
        error := problem.value;
        loading := false;
        return None;
      }
      loading := true;
      sent := Some(BodyOf(fields));
      Finish(OutcomeOfFixed(answer));
    }
  }

  /** Signing up where no admin exists and the email is free: the page
      sends its form and the server creates the one admin account, but the
      page stays on the form showing "Signup failed", and the form is no
      longer offered, so signing up again is refused. */
  method FirstAdminSignsUp(db: Db, f: Fields) returns (page: Page, retry: Response<AuthController.Account>)
    requires db.Valid() && FindAdmin(db.users).None? && !EmailTaken(db.users, Text.ToLower(f.email))
    requires Check(f, true).None?
    modifies db
    ensures db.Valid() && UserController.AdminCount(db.users) == 1
    ensures !page.navigated && page.error == SignupFailed
    ensures !AuthController.CheckSignupAvailable(db.users)
    ensures retry == Fail(403, AuthController.AdminAlreadyExists)
  {
    page := new Page();
    var available := AuthController.CheckSignupAvailable(db.users);
    page.CheckAvailability(Some(available));
    page.Change(f);
    page.SetAgree(true);
    var answer := AuthController.Signup(db, BodyOf(f));
    var sent := page.Submit(Some(answer));
    AuthController.SignupAvailableIffNoAdmin(db.users);
    retry := AuthController.Signup(db, BodyOf(f));
  }

  /** With the body read, the same signup moves on to the dashboard
      without an error. */
  method FirstAdminSignsUpFixed(db: Db, f: Fields) returns (page: Page)
    requires db.Valid() && FindAdmin(db.users).None? && !EmailTaken(db.users, Text.ToLower(f.email))
    requires Check(f, true).None?
    modifies db
    ensures db.Valid() && UserController.AdminCount(db.users) == 1
    ensures page.navigated && page.error == ""
  {
    page := new Page();
    var available := AuthController.CheckSignupAvailable(db.users);
    page.CheckAvailability(Some(available));
    page.Change(f);
    page.SetAgree(true);
    var answer := AuthController.Signup(db, BodyOf(f));
    var sent := page.SubmitFixed(Some(answer));
  }
}
