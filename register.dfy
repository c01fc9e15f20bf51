/** The registration page: an email/password form whose submit handler checks the fields,
    calls the sign-up service and reports the reply. */
module RegisterPage {
  import opened Feedback

  datatype Form = Form(email: string, password: string)

  /** The `name` attributes of the form's inputs. */
  datatype Field = Email | Password

  const MinPasswordLength: nat := 6

  function Get(f: Form, field: Field): string
  {
    match field
    case Email => f.email
    case Password => f.password
  }

  /** `handleInputChange`: the named input's new value replaces that field only. */
  function WithField(f: Form, field: Field, value: string): (r: Form)
    ensures Get(r, field) == value
    ensures forall other :: other != field ==> Get(r, other) == Get(f, other)
  {
    match field
    case Email => f.(email := value)
    case Password => f.(password := value)
  }

  /** What the submit handler decides before any call is made. */
  datatype Check = MissingFields | PasswordTooShort | CallSignUp

  /** The guards of `handleSubmit`, in their order: both fields present, then the length. */
  function Validate(f: Form): (c: Check)
    ensures c == MissingFields <==> f.email == "" || f.password == ""
    ensures c == PasswordTooShort <==> f.email != "" && 0 < |f.password| < MinPasswordLength
    ensures c == CallSignUp <==> f.email != "" && |f.password| >= MinPasswordLength
  {
    if f.email == "" || f.password == "" then MissingFields
    else if |f.password| < MinPasswordLength then PasswordTooShort
    else CallSignUp
  }

  /** The toast of a submit that stops at a guard. */
  function RejectionToast(c: Check): (t: Toast)
    requires c != CallSignUp
    ensures t.variant == Destructive
    ensures c == MissingFields ==> t.title == "Missing fields"
    ensures c == PasswordTooShort ==> t.title == "Password too short"
  {
    if c == MissingFields then Toast("Missing fields", "Please fill in all required fields.", Destructive)
    else Toast("Password too short", "Password must be at least 6 characters long.", Destructive)
  }

  /** How the awaited `signUp(email, password)` settles: it resolves without an error,
      resolves with an `error`, or rejects (throws), which the handler does not catch. */
  datatype SignUpReply = SignUpOk | SignUpFailed(message: string) | SignUpRejected

  datatype Reaction = Reaction(toast: Option<Toast>, navigation: Option<Navigation>)

  /** The handling of the reply: a failure stays on the page and shows the service's
      message; a success announces itself and moves to the login page after 1.5 seconds;
      a rejection ends the handler before either happens. */
  function ReactToSignUp(reply: SignUpReply): (r: Reaction)
    ensures r.navigation.Some? <==> reply.SignUpOk?
    ensures r.navigation.Some? ==> r.navigation.value == Navigation("/login", 1500)
    ensures r.toast.None? <==> reply.SignUpRejected?
    ensures reply.SignUpFailed? ==> r.toast == Some(Toast("Registration failed", reply.message, Destructive))
    ensures reply.SignUpOk? ==> r.toast.Some? && r.toast.value.variant == Default
  {
    match reply
    case SignUpFailed(message) => Reaction(Some(Toast("Registration failed", message, Destructive)), None)
    case SignUpOk =>
      Reaction(Some(Toast("✅ Registration successful!", "Please login to continue your spiritual journey.", Default)),
               Some(Navigation("/login", 1500)))
    case SignUpRejected => Reaction(None, None)
  }

  /** A call of `signUp`: the credentials passed and the `loading` flag while it is awaited. */
  datatype SignUpCall = SignUpCall(email: string, password: string, loadingWhileAwaited: bool)

  /** Everything one submit does outside the component's own state. */
  datatype Submission = Submission(call: Option<SignUpCall>, toast: Option<Toast>, navigation: Option<Navigation>)

  /** An empty password is reported as a missing field, never as a short password. */
  lemma MissingFieldsFirst(email: string)
    ensures Validate(Form(email, "")) == MissingFields
  {
  }

  /** The register component's state. */
  class Register {
    var loading: bool
    var formData: Form

    constructor ()
      ensures !loading && formData == Form("", "")
    {
      loading := false;
      formData := Form("", "");
    }

    /** `handleInputChange` */
    method HandleInputChange(field: Field, value: string)
      modifies this
      ensures formData == WithField(old(formData), field, value)
      ensures loading == old(loading)
    {
      formData := WithField(formData, field, value);
    }

    /** `handleSubmit`, with `reply` standing for how the awaited `signUp` settles;
        `reply` is not looked at unless the call is made. When the call rejects, the
        statement that clears `loading` is never reached, so the form stays disabled. */
    method HandleSubmit(reply: SignUpReply) returns (s: Submission)
      modifies this
      ensures formData == old(formData)
      ensures s.call.Some? <==> Validate(formData) == CallSignUp
      ensures s.call.None? ==>
        loading == old(loading) && s.toast == Some(RejectionToast(Validate(formData))) && s.navigation == None
      ensures s.call.Some? ==>
        s.call.value == SignUpCall(formData.email, formData.password, true) &&
        (loading <==> reply.SignUpRejected?) &&
        s.toast == ReactToSignUp(reply).toast && s.navigation == ReactToSignUp(reply).navigation
    {
      if formData.email == "" || formData.password == "" {
        s := Submission(None, Some(Toast("Missing fields", "Please fill in all required fields.", Destructive)), None);
        return;
      }
      if |formData.password| < MinPasswordLength {
        s := Submission(None, Some(Toast("Password too short", "Password must be at least 6 characters long.", Destructive)), None);
        return;
      }
      loading := true;
      var call := SignUpCall(formData.email, formData.password, loading);
      var reaction := ReactToSignUp(reply);
      if reply.SignUpRejected? {
        s := Submission(Some(call), None, None);
        return;
      }
      loading := false;
      s := Submission(Some(call), reaction.toast, reaction.navigation);
    }
  }
}
