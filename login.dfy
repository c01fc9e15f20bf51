/** The login page: one form that either signs a user in or, with the mode switched,
    registers one (then a name is also asked for). Submitting only validates and moves on. */
module LoginPage {
  import opened Feedback

  datatype Form = Form(name: string, email: string, password: string)

  /** The `name` attributes of the form's inputs. */
  datatype Field = Name | Email | Password

  function Get(f: Form, field: Field): string
  {
    match field
    case Name => f.name
    case Email => f.email
    case Password => f.password
  }

  /** `handleInputChange`: the named input's new value replaces that field only. */
  function WithField(f: Form, field: Field, value: string): (r: Form)
    ensures Get(r, field) == value
    ensures forall other :: other != field ==> Get(r, other) == Get(f, other)
  {
    match field
    case Name => f.(name := value)
    case Email => f.(email := value)
    case Password => f.(password := value)
  }

  datatype Verdict = MissingFields | MissingName | Success

  /** The guards of `handleSubmit`: email and password in either mode, then the name
      when registering. No length or format of any field is checked. */
  function Decide(isLogin: bool, f: Form): (v: Verdict)
    ensures v == MissingFields <==> f.email == "" || f.password == ""
    ensures v == MissingName <==> f.email != "" && f.password != "" && !isLogin && f.name == ""
    ensures v == Success <==> f.email != "" && f.password != "" && (isLogin || f.name != "")
  {
    if f.email == "" || f.password == "" then MissingFields
    else if !isLogin && f.name == "" then MissingName
    else Success
  }

  /** The toast each verdict shows. */
  function VerdictToast(isLogin: bool, v: Verdict): (t: Toast)
    ensures t.variant == Destructive <==> v != Success
    ensures v == Success ==> t.title == (if isLogin then "Welcome back!" else "Account created!")
  {
    match v
    case MissingFields => Toast("Missing fields", "Please fill in all required fields.", Destructive)
    case MissingName => Toast("Missing name", "Please enter your name to register.", Destructive)
    case Success =>
      if isLogin then
        Toast("Welcome back!", "You have successfully logged in. May Allah bless your prayers.", Default)
      else
        Toast("Account created!", "Your spiritual journey begins now. Barakallahu feek!", Default)
  }

  /** Only a successful submit navigates: to the dashboard, one second later. */
  function VerdictNavigation(v: Verdict): (n: Option<Navigation>)
    ensures n.Some? <==> v == Success
    ensures n.Some? ==> n.value.route == "/dashboard"
  {
    if v == Success then Some(Navigation("/dashboard", 1000)) else None
  }

  /** A missing email or password is reported the same way in both modes. */
  lemma MissingFieldsInEitherMode(f: Form)
    requires f.email == "" || f.password == ""
    ensures Decide(true, f) == Decide(false, f) == MissingFields
  {
  }

  /** In login mode the name never matters, and any non-empty password passes. */
  lemma LoginIgnoresName(f: Form, name: string)
    requires f.email != "" && f.password != ""
    ensures Decide(true, f) == Decide(true, f.(name := name)) == Success
  {
  }

  /** The login component's state. */
  class Login {
    var isLogin: bool
    var formData: Form

    constructor ()
      ensures isLogin && formData == Form("", "", "")
    {
      isLogin := true;
      formData := Form("", "", "");
    }

    /** The "Register here" / "Sign in" link. */
    method SwitchMode()
      modifies this
      ensures isLogin == !old(isLogin)
      ensures formData == old(formData)
    {
      isLogin := !isLogin;
    }

    /** `handleInputChange` */
    method HandleInputChange(field: Field, value: string)
      modifies this
      ensures formData == WithField(old(formData), field, value)
      ensures isLogin == old(isLogin)
    {
      formData := WithField(formData, field, value);
    }

    /** `handleSubmit`: changes no state; returns the toast and the navigation it triggers. */
    method HandleSubmit() returns (toast: Toast, navigation: Option<Navigation>)
      ensures navigation.Some? <==> formData.email != "" && formData.password != "" && (isLogin || formData.name != "")
      ensures navigation.Some? ==>
        navigation.value == Navigation("/dashboard", 1000) &&
        toast.title == (if isLogin then "Welcome back!" else "Account created!")
      ensures navigation.None? ==>
        toast.variant == Destructive &&
        toast.title == (if formData.email == "" || formData.password == "" then "Missing fields" else "Missing name")
    {
      var verdict := Decide(isLogin, formData);
      toast := VerdictToast(isLogin, verdict);
      navigation := VerdictNavigation(verdict);
    }
  }

  /** Switching the mode twice restores it and leaves the form alone. */
  method SwitchModeTwice(page: Login)
    modifies page
    ensures page.isLogin == old(page.isLogin) && page.formData == old(page.formData)
  {
    page.SwitchMode();
    page.SwitchMode();
  }
}
