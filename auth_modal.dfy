/** The sign-in dialog (components/AuthModal.tsx): login, signup and forgot-password
    views, each submit handler's checks in their order, and the view switches. */
module AuthModal {
  import opened Types

  datatype View = LoginView | SignupView | ForgotView

  const InvalidLogin := "Invalid email or password."
  const FillAllFields := "Please fill all fields."
  const PasswordsDiffer := "Passwords do not match."
  const SignupFailed := "Could not create account. Email may already be in use."
  const EnterEmail := "Please enter your email address."

  /** The confirmation shown once the simulated reset link has been "sent". */
  function ResetMessage(email: string): (r: string)
    ensures |r| == |email| + 64
    ensures r[19..19 + |email|] == email
  {
    "If an account with " + email + " exists, a password reset link has been sent."
  }

  /** The error after a login whose outcome is `accepted`, under the declared
      `(email, pass) => boolean` contract. */
  function LoginError(accepted: bool): (r: string)
    ensures r == InvalidLogin <==> !accepted
    ensures accepted ==> r == ""
  {
    if accepted then "" else InvalidLogin
  }

  /** What a signup submit does with the four fields: whether it calls `onUserSignup`,
      and the error it leaves, given that call's outcome. */
  datatype SignupStep = SignupStep(calls: bool, error: string)

  function SignupDecision(username: string, email: string, password: string, confirm: string, accepted: bool): (r: SignupStep)
    ensures r.calls <==> username != "" && email != "" && password != "" && password == confirm
    ensures (username == "" || email == "" || password == "") ==> r.error == FillAllFields
    ensures (username != "" && email != "" && password != "" && password != confirm) ==> r.error == PasswordsDiffer
    ensures r.calls ==> r.error == FailureText(accepted, SignupFailed)
  {
    if username == "" || email == "" || password == "" then SignupStep(false, FillAllFields)
    else if password != confirm then SignupStep(false, PasswordsDiffer)
    else SignupStep(true, if accepted then "" else SignupFailed)
  }

  /** The failure text `message` when the call was refused, nothing when it was
      accepted. */
  function FailureText(accepted: bool, message: string): string {
    if accepted then "" else message
  }

  /** The error of a signup that reaches the call is empty exactly when the account
      was created. */
  lemma SignupErrorIffRefused(username: string, email: string, password: string, confirm: string, accepted: bool)
    requires username != "" && email != "" && password != "" && password == confirm
    ensures SignupDecision(username, email, password, confirm, accepted).error == SignupFailed <==> !accepted
    ensures SignupDecision(username, email, password, confirm, accepted).error == "" <==> accepted
  {
  }

  /** The handlers App actually hands the dialog are `async`: what comes back is a
      promise, which JavaScript counts as true whatever it later resolves to. */
  datatype HandlerReturn = Returned(ok: bool) | Promised(eventually: bool)

  predicate Truthy(r: HandlerReturn) {
    r.Promised? || r.ok
  }

  /** `if (!onUserLogin(...)) setError(...)` over what is really passed in. */
  function WiredLoginError(r: HandlerReturn): (e: string)
    ensures e == InvalidLogin <==> !Truthy(r)
    ensures r.Promised? ==> e == ""
  {
    if !Truthy(r) then InvalidLogin else ""
  }

  /** As wired, a refused login leaves no error: the failure branch never runs. */
  lemma WiredLoginFailureIsSilent()
    ensures WiredLoginError(Promised(false)) == ""
    ensures LoginError(false) == InvalidLogin
  {
  }

  /** `handleSignupSubmit`'s result test over what is really passed in. */
  function WiredSignupError(username: string, email: string, password: string, confirm: string, r: HandlerReturn)
    : (e: string)
    ensures e == SignupFailed <==>
              username != "" && email != "" && password != "" && password == confirm && !Truthy(r)
    ensures r.Promised? ==> e != SignupFailed
  {
    if username == "" || email == "" || password == "" then FillAllFields
    else if password != confirm then PasswordsDiffer
    else if !Truthy(r) then SignupFailed
    else ""
  }

  /** The same for signup: a refused signup that passes the field checks shows nothing. */
  lemma WiredSignupFailureIsSilent(username: string, email: string, password: string)
    requires username != "" && email != "" && password != ""
    ensures WiredSignupError(username, email, password, password, Promised(false)) == ""
    ensures SignupDecision(username, email, password, password, false).error == SignupFailed
  {
  }

  /** The text inputs of the dialog. */
  datatype Input = LoginEmail | LoginPassword | SignupUsername | SignupEmail
                 | SignupPassword | SignupConfirm | ForgotEmail

  class Modal {
    var view: View
    var loginEmail: string
    var loginPassword: string
    var signupUsername: string
    var signupEmail: string
    var signupPassword: string
    var signupConfirm: string
    var forgotEmail: string
    var forgotMessage: string
    var error: string
    /** The e-mail addresses of reset timers started and not yet fired, oldest first. */
    var pendingResets: seq<string>
    /** The `onUserLogin` and `onUserSignup` calls made, in order. */
    var logins: seq<(string, string)>
    var signups: seq<(string, string, string)>
    /** How often `onShowAdminLogin` and `onClose` were called. */
    var adminRequests: nat
    var closeRequests: nat

    constructor()
      ensures view == LoginView && error == "" && forgotMessage == ""
      ensures loginEmail == "" && loginPassword == "" && forgotEmail == ""
      ensures signupUsername == "" && signupEmail == "" && signupPassword == "" && signupConfirm == ""
      ensures pendingResets == [] && logins == [] && signups == []
      ensures adminRequests == 0 && closeRequests == 0
    {
      view := LoginView;
      loginEmail, loginPassword := "", "";
      signupUsername, signupEmail, signupPassword, signupConfirm := "", "", "", "";
      forgotEmail, forgotMessage, error := "", "", "";
      pendingResets := [];
      logins, signups := [], [];
      adminRequests, closeRequests := 0, 0;
    }

    /** An `onChange` of one input. */
    method Type(input: Input, text: string)
      modifies this`loginEmail, this`loginPassword, this`signupUsername, this`signupEmail,
               this`signupPassword, this`signupConfirm, this`forgotEmail
      ensures loginEmail == if input == LoginEmail then text else old(loginEmail)
      ensures loginPassword == if input == LoginPassword then text else old(loginPassword)
      ensures signupUsername == if input == SignupUsername then text else old(signupUsername)
      ensures signupEmail == if input == SignupEmail then text else old(signupEmail)
      ensures signupPassword == if input == SignupPassword then text else old(signupPassword)
      ensures signupConfirm == if input == SignupConfirm then text else old(signupConfirm)
      ensures forgotEmail == if input == ForgotEmail then text else old(forgotEmail)
    {
      match input
      case LoginEmail => loginEmail := text;
      case LoginPassword => loginPassword := text;
      case SignupUsername => signupUsername := text;
      case SignupEmail => signupEmail := text;
      case SignupPassword => signupPassword := text;
      case SignupConfirm => signupConfirm := text;
      case ForgotEmail => forgotEmail := text;
    }

    /** `handleLoginSubmit`, with the login's outcome as `accepted`. */
    method LoginSubmit(accepted: bool)
      modifies this`error, this`logins
      ensures logins == old(logins) + [(loginEmail, loginPassword)]
      ensures error == LoginError(accepted)
    {
      error := "";
      logins := logins + [(loginEmail, loginPassword)];
      if !accepted {
        error := InvalidLogin;
      }
    }

    /** `handleSignupSubmit`: the field checks in order, then the call, with its outcome
        as `accepted`. */
    method SignupSubmit(accepted: bool)
      modifies this`error, this`signups
      ensures var step := SignupDecision(signupUsername, signupEmail, signupPassword, signupConfirm, accepted);
              && error == step.error
              && signups == old(signups) + (if step.calls then [(signupUsername, signupEmail, signupPassword)] else [])
    {
      error := "";
      if signupUsername == "" || signupEmail == "" || signupPassword == "" {
        error := FillAllFields;
        return;
      }
      if signupPassword != signupConfirm {
        error := PasswordsDiffer;
        return;
      }
      signups := signups + [(signupUsername, signupEmail, signupPassword)];
      if !accepted {
        error := SignupFailed;
      }
    }

    /** `handleForgotSubmit`: both texts are cleared; an empty address is an error,
        otherwise a timer is started for the address as it is now. */
    method ForgotSubmit()
      modifies this`error, this`forgotMessage, this`pendingResets
      ensures forgotMessage == ""
      ensures forgotEmail == "" ==> error == EnterEmail && pendingResets == old(pendingResets)
      ensures forgotEmail != "" ==> error == "" && pendingResets == old(pendingResets) + [forgotEmail]
    {
      error := "";
      forgotMessage := "";
      if forgotEmail == "" {
        error := EnterEmail;
        return;
      }
      pendingResets := pendingResets + [forgotEmail];
    }

    /** The oldest reset timer fires and shows its confirmation. */
    method ResetTimerFires()
      requires pendingResets != []
      modifies this`forgotMessage, this`pendingResets
      ensures forgotMessage == ResetMessage(old(pendingResets)[0])
      ensures pendingResets == old(pendingResets)[1..]
    {
      forgotMessage := ResetMessage(pendingResets[0]);
      pendingResets := pendingResets[1..];
    }

    /** The Login and Sign Up tabs and the Forgot Password link: the view changes and
        the error is cleared. */
    method SwitchView(to: View)
      modifies this`view, this`error
      ensures view == to && error == ""
    {
      view := to;
      error := "";
    }

    /** Back to Login from the reset view: the confirmation goes too. */
    method BackToLogin()
      modifies this`view, this`error, this`forgotMessage
      ensures view == LoginView && error == "" && forgotMessage == ""
    {
      view := LoginView;
      error := "";
      forgotMessage := "";
    }

    method AdminLinkClick()
      modifies this`adminRequests
      ensures adminRequests == old(adminRequests) + 1
    {
      adminRequests := adminRequests + 1;
    }

    /** The close button or a click on the backdrop. */
    method Close()
      modifies this`closeRequests
      ensures closeRequests == old(closeRequests) + 1
    {
      closeRequests := closeRequests + 1;
    }
  }

  /** A signup with a blank field never reaches `onUserSignup`, and a later fix of the
      field followed by a matching confirmation does. */
  method BlankThenCompleteSignup(m: Modal)
    modifies m
    ensures |m.signups| == |old(m.signups)| + 1
    ensures m.signups[|m.signups| - 1] == ("ana", "ana@example.org", "secret")
  {
    m.Type(SignupUsername, "");
    m.Type(SignupEmail, "ana@example.org");
    m.Type(SignupPassword, "secret");
    m.Type(SignupConfirm, "secret");
    m.SignupSubmit(true);
    assert m.error == FillAllFields && m.signups == old(m.signups);
    m.Type(SignupUsername, "ana");
    m.SignupSubmit(true);
    assert m.error == "";
  }
}
