/** Register.jsx: the sign-up form. The fields are edited one at a time; submitting runs three
    checks in order, the first failure being shown, and only a form that passes all three is
    sent to register, whose outcome is a parameter. */
module RegisterPage {
  import opened Wrappers

  datatype FormField = Name | Email | Password | ConfirmPassword

  datatype SignUpForm = SignUpForm(name: string, email: string, password: string, confirmPassword: string)

  /** The object handed to register. */
  datatype SignUpPayload = SignUpPayload(name: string, email: string, password: string)

  const FillAllMessage: string := "Please fill in all fields"
  const MismatchMessage: string := "Passwords do not match"
  const TooShortMessage: string := "Password must be at least 6 characters long"
  const MinPasswordLength: nat := 6

  const BlankForm: SignUpForm := SignUpForm("", "", "", "")

  function FieldValue(form: SignUpForm, field: FormField): string
  {
    match field
    case Name => form.name
    case Email => form.email
    case Password => form.password
    case ConfirmPassword => form.confirmPassword
  }

  /** handleInputChange: `{ ...prev, [field]: value }`. */
  function SetField(form: SignUpForm, field: FormField, value: string): (r: SignUpForm)
    ensures FieldValue(r, field) == value
    ensures forall f :: f != field ==> FieldValue(r, f) == FieldValue(form, f)
  {
    match field
    case Name => form.(name := value)
    case Email => form.(email := value)
    case Password => form.(password := value)
    case ConfirmPassword => form.(confirmPassword := value)
  }

  /** The three checks of handleSubmit in order; the first that fails gives the message. An
      empty string is the only falsy string. */
  function FirstFailure(form: SignUpForm): Option<string>
  {
    if form.name == "" || form.email == "" || form.password == "" || form.confirmPassword == "" then
      Some(FillAllMessage)
    else if form.password != form.confirmPassword then Some(MismatchMessage)
    else if |form.password| < MinPasswordLength then Some(TooShortMessage)
    else None
  }

  /** Each message is shown exactly when its check is the first to fail, and a form passes
      exactly when every field is filled, the two passwords agree and the password has at least
      six characters. */
  lemma FirstFailureMeaning(form: SignUpForm)
    ensures var anyEmpty := exists f :: FieldValue(form, f) == "";
            && (FirstFailure(form) == Some(FillAllMessage) <==> anyEmpty)
            && (FirstFailure(form) == Some(MismatchMessage) <==> !anyEmpty && form.password != form.confirmPassword)
            && (FirstFailure(form) == Some(TooShortMessage) <==>
                  !anyEmpty && form.password == form.confirmPassword && |form.password| < MinPasswordLength)
            && (FirstFailure(form).None? <==>
                  !anyEmpty && form.password == form.confirmPassword && |form.password| >= MinPasswordLength)
  {
    var anyEmpty := exists f :: FieldValue(form, f) == "";
    if form.name == "" { assert FieldValue(form, Name) == ""; }
    if form.email == "" { assert FieldValue(form, Email) == ""; }
    if form.password == "" { assert FieldValue(form, Password) == ""; }
    if form.confirmPassword == "" { assert FieldValue(form, ConfirmPassword) == ""; }
  }

  /** The first failure wins: a short password that also differs from its confirmation is
      reported as a mismatch. */
  lemma MismatchBeforeLength()
    ensures FirstFailure(SignUpForm("Ana", "ana@example.com", "abc", "abd")) == Some(MismatchMessage)
    ensures FirstFailure(SignUpForm("Ana", "ana@example.com", "abc", "abc")) == Some(TooShortMessage)
    ensures FirstFailure(SignUpForm("Ana", "", "abc", "abd")) == Some(FillAllMessage)
  {
  }

  /** The payload register receives: the confirmation is dropped. */
  function Payload(form: SignUpForm): (p: SignUpPayload)
    ensures p.name == form.name && p.email == form.email && p.password == form.password
  {
    SignUpPayload(form.name, form.email, form.password)
  }

  class SignUpPage {
    var form: SignUpForm
    var error: string
    var loading: bool
    /** The payloads sent to register, oldest first. */
    var sent: seq<SignUpPayload>
    /** Whether navigate('/') has been called. */
    var navigatedHome: bool

    constructor()
      ensures form == BlankForm && error == "" && !loading && sent == [] && !navigatedHome
    {
      form := BlankForm;
      error := "";
      loading := false;
      sent := [];
      navigatedHome := false;
    }

    /** handleInputChange */
    method HandleInputChange(field: FormField, value: string)
      modifies this
      ensures form == SetField(old(form), field, value)
      ensures error == old(error) && loading == old(loading) && sent == old(sent)
      ensures navigatedHome == old(navigatedHome)
    {
      form := SetField(form, field, value);
    }

    /** handleSubmit. A failed check shows its message and calls nothing. Otherwise the error
        is cleared and register is called once with name, email and password; success navigates
        home, failure shows the thrown message, and loading ends false either way. */
    method HandleSubmit(outcome: Result<(), string>)
      modifies this
      ensures form == old(form)
      ensures FirstFailure(form).Some? ==>
                && error == FirstFailure(form).value
                && sent == old(sent) && loading == old(loading) && navigatedHome == old(navigatedHome)
      ensures FirstFailure(form).None? ==>
                && sent == old(sent) + [Payload(form)]
                && !loading
                && (outcome.Ok? ==> error == "" && navigatedHome)
                && (outcome.Err? ==> error == outcome.error && navigatedHome == old(navigatedHome))
    {
      var failure := FirstFailure(form);
      if failure.Some? {
        error := failure.value;
        return;
      }
      loading := true;
      error := "";
      sent := sent + [Payload(form)];
      match outcome {
        case Ok(_) =>
          navigatedHome := true;
        case Err(message) =>
          error := message;
      }
      loading := false;
    }
  }
}
