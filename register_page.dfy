/**
 * The registration page: the password checks of `validateForm`, the data
 * sent to the session's `register`, and what the page does with the answer.
 */
module RegisterPage {
  import opened Wrappers
  import opened AuthContext

  /** `formData`. */
  datatype RegisterForm = RegisterForm(username: string, email: string, password: string,
                                       confirmPassword: string, mobile: string)

  /** `registerData`: the form without `confirmPassword`. */
  datatype RegisterData = RegisterData(username: string, email: string, password: string, mobile: string)

  const MinPasswordLength := 6

  /** What `validateForm` can refuse. */
  datatype Problem = Mismatch | TooShort

  function ProblemText(p: Problem): string
  {
    match p
    case Mismatch => "Passwords do not match"
    case TooShort => "Password must be at least 6 characters long"
  }

  /**
   * `validateForm()`: the match is checked first, so a mismatch is reported
   * even when the password is also short; `None` when both checks pass.
   */
  function ValidateForm(f: RegisterForm): (r: Option<Problem>)
    ensures r == Some(Mismatch) <==> f.password != f.confirmPassword
    ensures r == Some(TooShort) <==> f.password == f.confirmPassword && |f.password| < MinPasswordLength
    ensures r.None? <==> f.password == f.confirmPassword && |f.password| >= MinPasswordLength
  {
    if f.password != f.confirmPassword then Some(Mismatch)
    else if |f.password| < MinPasswordLength then Some(TooShort)
    else None
  }

  /** `const { confirmPassword, ...registerData } = formData`. */
  function RegisterPayload(f: RegisterForm): (d: RegisterData)
    ensures WithConfirmation(d, f.confirmPassword) == f
  {
    RegisterData(f.username, f.email, f.password, f.mobile)
  }

  /** The form that a payload and a confirmation text come from. */
  function WithConfirmation(d: RegisterData, confirm: string): RegisterForm
  {
    RegisterForm(d.username, d.email, d.password, confirm, d.mobile)
  }

  /**
   * A form that passes sends a password of at least six characters that
   * equals its confirmation, so stripping the confirmation loses nothing.
   */
  lemma PassingPayload(f: RegisterForm)
    requires ValidateForm(f).None?
    ensures |RegisterPayload(f).password| >= MinPasswordLength
    ensures WithConfirmation(RegisterPayload(f), RegisterPayload(f).password) == f
  {
  }

  /** The input an edit comes from (`e.target.name`). */
  datatype Field = Username | Email | Password | ConfirmPassword | Mobile

  /** `{ ...formData, [name]: value }`. */
  function Edited(f: RegisterForm, field: Field, value: string): RegisterForm
  {
    match field
    case Username => f.(username := value)
    case Email => f.(email := value)
    case Password => f.(password := value)
    case ConfirmPassword => f.(confirmPassword := value)
    case Mobile => f.(mobile := value)
  }

  /** The page's error block: empty, a refused form, or the session's failure text. */
  datatype Shown = NoError | Invalid(problem: Problem) | Failed(message: string)

  class Page {
    var form: RegisterForm
    var isLoading: bool
    var error: Shown
    /** How many times the page navigated to `/dashboard`. */
    var dashboardVisits: nat

    /**
     * The busy flag is down between operations. Each operation here runs to
     * completion in one step, so the flag only marks the spinner's
     * state; this predicate ties no other field and no contract relies on it.
     */
    ghost predicate Valid()
      reads this
    {
      !isLoading
    }

    constructor ()
      ensures Valid()
      ensures form == RegisterForm("", "", "", "", "") && error == NoError && dashboardVisits == 0
    {
      form, isLoading, error, dashboardVisits := RegisterForm("", "", "", "", ""), false, NoError, 0;
    }

    /** `handleChange(e)`: the edit is applied and any error is cleared. */
    method HandleChange(field: Field, value: string)
      requires Valid()
      modifies this
      ensures Valid()
      ensures form == Edited(old(form), field, value) && error == NoError
      ensures dashboardVisits == old(dashboardVisits)
    {
      form := Edited(form, field, value);
      error := NoError;
    }

    /**
     * `handleSubmit()` against the session, with the server's answer to the
     * registration. A refused form shows its problem and the session is not
     * called. Otherwise the payload is registered: on success the page goes
     * to the dashboard, on failure it shows the session's error text. The
     * form is never changed.
     */
    method HandleSubmit(session: Session, response: AuthResponse) returns (sent: Option<RegisterData>)
      requires Valid() && session.Valid()
      modifies this, session
      ensures Valid() && session.Valid() && form == old(form)
      ensures ValidateForm(form).Some? ==>
                && sent.None? && error == Invalid(ValidateForm(form).value)
                && dashboardVisits == old(dashboardVisits) && unchanged(session)
      ensures ValidateForm(form).None? ==> sent == Some(RegisterPayload(form))
      ensures ValidateForm(form).None? && response.Accepted? ==>
                && dashboardVisits == old(dashboardVisits) + 1 && error == NoError
                && session.isAuthenticated && session.user == response.userDto
      ensures ValidateForm(form).None? && response.Refused? ==>
                && dashboardVisits == old(dashboardVisits)
                && error == Failed(FailureText(response.message, "Registration failed"))
                && session.user == old(session.user) && session.isAuthenticated == old(session.isAuthenticated)
    {
      var problem := ValidateForm(form);
      if problem.Some? {
        error := Invalid(problem.value);
        return None;
      }
      isLoading := true;
      error := NoError;
      sent := Some(RegisterPayload(form));
      var result := session.Register(response);
      match result {
        case SignedIn(_) =>
          dashboardVisits := dashboardVisits + 1;
        case NotSignedIn(message) =>
          error := Failed(message);
      }
      isLoading := false;
    }
  }
}
