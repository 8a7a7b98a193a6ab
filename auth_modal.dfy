/** The sign-in / sign-up dialog: its form state, the mode switch, the
    submit handler and the messages shown for authentication error codes. */
module AuthModal {
  import opened Wrappers
  import opened JsText

  datatype Mode = Login | Register

  function Toggle(m: Mode): (r: Mode)
    ensures r != m
  {
    if m == Login then Register else Login
  }

  /** Switching twice restores the mode. */
  lemma ToggleTwice(m: Mode)
    ensures Toggle(Toggle(m)) == m
  {
  }

  const InvalidCredentials := "Invalid email or password"
  const EmailInUse := "An account with this email already exists"
  const WeakPassword := "Password should be at least 6 characters"
  const InvalidEmail := "Invalid email address"
  const GenericFailure := "Authentication failed. Please try again."
  const DisplayNameRequired := "Display name is required"

  /** The message for a thrown error whose `code` is `code` (`None` when it
      has none). */
  function ErrorMessage(code: Option<string>): (r: string)
    ensures r == InvalidCredentials <==> code == Some("auth/user-not-found") || code == Some("auth/wrong-password")
    ensures r == EmailInUse <==> code == Some("auth/email-already-in-use")
    ensures r == WeakPassword <==> code == Some("auth/weak-password")
    ensures r == InvalidEmail <==> code == Some("auth/invalid-email")
    ensures r in {InvalidCredentials, EmailInUse, WeakPassword, InvalidEmail, GenericFailure}
  {
    if code == Some("auth/user-not-found") || code == Some("auth/wrong-password") then InvalidCredentials
    else if code == Some("auth/email-already-in-use") then EmailInUse
    else if code == Some("auth/weak-password") then WeakPassword
    else if code == Some("auth/invalid-email") then InvalidEmail
    else GenericFailure
  }

  /** Any other code, or none, gives the generic message. */
  lemma OtherCodesAreGeneric(code: Option<string>)
    requires code.None? || code.value !in {"auth/user-not-found", "auth/wrong-password", "auth/email-already-in-use",
                                           "auth/weak-password", "auth/invalid-email"}
    ensures ErrorMessage(code) == GenericFailure
  {
  }

  /** The call the handler makes to the authentication service. */
  datatype AuthCall = NoCall | SignIn(email: string, password: string) | SignUp(email: string, password: string, displayName: string)

  /** What that call did: resolved, or threw an error with an optional code. */
  datatype AuthResult = Success | Failure(code: Option<string>)

  /** The call a submit makes from the form's values. */
  function Submission(mode: Mode, email: string, password: string, displayName: string): (r: AuthCall)
    ensures r == NoCall <==> mode == Register && AllSpace(displayName)
    ensures mode == Login ==> r == SignIn(email, password)
    ensures r.SignUp? ==> mode == Register && r == SignUp(email, password, Trim(displayName))
                          && r.displayName != [] && !IsSpace(r.displayName[0])
  {
    if mode == Login then SignIn(email, password)
    else
      var name := Trim(displayName);
      assert mode == Register;
      if name == [] then assert AllSpace(displayName); NoCall
      else assert !AllSpace(displayName); SignUp(email, password, name)
  }

  /** Login ignores the display name. */
  lemma LoginIgnoresDisplayName(email: string, password: string, a: string, b: string)
    ensures Submission(Login, email, password, a) == Submission(Login, email, password, b)
  {
  }

  class AuthModal {
    var mode: Mode
    var email: string
    var password: string
    var displayName: string
    var error: Option<string>
    var loading: bool
    /** Whether `onClose` has been called. */
    var closed: bool

    constructor(defaultMode: Mode)
      ensures mode == defaultMode && email == "" && password == "" && displayName == ""
      ensures error == None && !loading && !closed
    {
      mode := defaultMode;
      email := "";
      password := "";
      displayName := "";
      error := None;
      loading := false;
      closed := false;
    }

    /** Toggles the mode and clears the error; the typed values stay. */
    method SwitchMode()
      modifies this
      ensures mode == Toggle(old(mode)) && error == None
      ensures email == old(email) && password == old(password) && displayName == old(displayName)
      ensures loading == old(loading) && closed == old(closed)
    {
      mode := if mode == Login then Register else Login;
      error := None;
    }

    /** Clears the typed values and the error; the mode stays. */
    method ResetForm()
      modifies this
      ensures email == "" && password == "" && displayName == "" && error == None
      ensures mode == old(mode) && loading == old(loading) && closed == old(closed)
    {
      email := "";
      password := "";
      displayName := "";
      error := None;
    }

    /** The submit handler. It makes the call `Submission` names; `result`
        is how that call ended. A blank display name in register mode stops
        before any call; success closes the dialog and clears the form;
        failure shows the message for the error's code. */
    method HandleSubmit(result: AuthResult) returns (call: AuthCall)
      modifies this
      ensures call == Submission(old(mode), old(email), old(password), old(displayName))
      ensures mode == old(mode) && !loading
      ensures call == NoCall ==> error == Some(DisplayNameRequired) && closed == old(closed)
                                 && email == old(email) && password == old(password) && displayName == old(displayName)
      ensures call != NoCall && result.Success? ==> (closed && error == None
                                                    && email == "" && password == "" && displayName == "")
      ensures call != NoCall && result.Failure? ==> (error == Some(ErrorMessage(result.code)) && closed == old(closed)
                                                    && email == old(email) && password == old(password)
                                                    && displayName == old(displayName))
    {
      error := None;
      loading := true;
      if mode == Login {
        call := SignIn(email, password);
      } else {
        var name := Trim(displayName);
        if name == "" {
          error := Some(DisplayNameRequired);
          loading := false;
          return NoCall;
        }
        call := SignUp(email, password, name);
      }
      match result {
        case Success =>
          closed := true;
          ResetForm();
        case Failure(code) =>
          error := Some(ErrorMessage(code));
      }
      loading := false;
    }
  }
}
