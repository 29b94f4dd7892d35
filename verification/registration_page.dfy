/** The sign-up form of src/pages/RegistrationPage.jsx: its own copy of the
    field rules (with a confirmation field added), the per-field error
    clearing while typing, and the submit flow around `registerUser`. */
module RegistrationPage {
  import opened Common
  import opened Validators
  import opened RegistrationService
  import opened Browser

  /** The five inputs of the form, by their `name` attribute. */
  datatype FormField = FullNameInput | EmailInput | PasswordInput | ConfirmInput | PhoneInput

  /** The form state; every input starts as the empty string. */
  datatype Form = Form(fullName: string, email: string, password: string, confirmPassword: string, phone: string)

  const EmptyForm: Form := Form("", "", "", "", "")

  function Value(form: Form, f: FormField): string {
    match f
    case FullNameInput => form.fullName
    case EmailInput => form.email
    case PasswordInput => form.password
    case ConfirmInput => form.confirmPassword
    case PhoneInput => form.phone
  }

  /** The service field a form input shares its rule with; the confirmation
      has no counterpart. */
  function Shared(f: FormField): Option<Field> {
    match f
    case FullNameInput => Some(FullName)
    case EmailInput => Some(Email)
    case PasswordInput => Some(Password)
    case PhoneInput => Some(Phone)
    case ConfirmInput => None
  }

  /** The message under an input. */
  function PageMessage(f: FormField, i: Issue): string {
    match f
    case ConfirmInput => if i == Required then "Please confirm your password" else "Passwords do not match"
    case _ => Message(Shared(f).value, i)
  }

  /** The confirmation rule: required when empty, then equal to the password. */
  function ConfirmIssue(form: Form): (r: Option<Issue>)
    ensures r == Some(Required) <==> form.confirmPassword == ""
    ensures r == Some(Malformed) <==> form.confirmPassword != "" && form.confirmPassword != form.password
    ensures r.None? <==> form.confirmPassword != "" && form.confirmPassword == form.password
  {
    if form.confirmPassword == "" then Some(Required)
    else if form.password != form.confirmPassword then Some(Malformed)
    else None
  }

  /** The issue `validateForm` finds with one input. */
  function InputIssue(form: Form, f: FormField): Option<Issue> {
    match f
    case FullNameInput => if Trim(form.fullName) == "" then Some(Required)
                          else if JsLength(Trim(form.fullName)) < 2 then Some(Malformed) else None
    case EmailInput => if form.email == "" then Some(Required)
                       else if !ValidEmail(form.email) then Some(Malformed) else None
    case PasswordInput => if form.password == "" then Some(Required)
                          else if !StrongPassword(form.password) then Some(Malformed) else None
    case ConfirmInput => ConfirmIssue(form)
    case PhoneInput => if form.phone == "" then Some(Required)
                       else if !ValidPhone(form.phone) then Some(Malformed) else None
  }

  /** The page's rules are the service's rules: on every shared input the
      form finds exactly the issue `validateRegistrationData` would. */
  lemma PageAgreesWithService(form: Form)
    ensures InputIssue(form, FullNameInput) == NameIssue(Some(form.fullName))
    ensures InputIssue(form, EmailInput) == EmailIssue(Some(form.email))
    ensures InputIssue(form, PasswordInput) == PasswordIssue(Some(form.password))
    ensures InputIssue(form, PhoneInput) == PhoneIssue(Some(form.phone))
  {
    NameAgrees(form);
    EmailAgrees(form);
    PasswordAgrees(form);
    PhoneAgrees(form);
  }

  lemma NameAgrees(form: Form)
    ensures InputIssue(form, FullNameInput) == NameIssue(Some(form.fullName))
  {
  }

  lemma EmailAgrees(form: Form)
    ensures InputIssue(form, EmailInput) == EmailIssue(Some(form.email))
  {
  }

  lemma PasswordAgrees(form: Form)
    ensures InputIssue(form, PasswordInput) == PasswordIssue(Some(form.password))
  {
  }

  lemma PhoneAgrees(form: Form)
    ensures InputIssue(form, PhoneInput) == PhoneIssue(Some(form.phone))
  {
  }

  /** The error messages shown under the inputs; an entry holding "" shows
      nothing. */
  type Errors = map<FormField, string>

  /** `validateForm()`'s `newErrors`: one message per input with an issue. */
  function FormErrors(form: Form): (r: Errors)
    ensures forall f :: f in r <==> InputIssue(form, f).Some?
    ensures forall f :: f in r ==> r[f] == PageMessage(f, InputIssue(form, f).value)
  {
    var issue := f => InputIssue(form, f);
    var r := ErrorsFrom(issue);
    forall f ensures (f in r <==> InputIssue(form, f).Some?)
                     && (f in r ==> r[f] == PageMessage(f, InputIssue(form, f).value)) {
      ErrorsFromAt(issue, f);
      assert issue(f) == InputIssue(form, f);
    }
    r
  }

  /** The entry written for input `f`, if it has an issue. */
  function AddIssue(issue: FormField -> Option<Issue>, f: FormField, errors: Errors): Errors {
    if issue(f).Some? then errors[f := PageMessage(f, issue(f).value)] else errors
  }

  /** The inputs checked in the order the page checks them. */
  function ErrorsFrom(issue: FormField -> Option<Issue>): Errors {
    AddIssue(issue, PhoneInput, AddIssue(issue, ConfirmInput, AddIssue(issue, PasswordInput,
      AddIssue(issue, EmailInput, AddIssue(issue, FullNameInput, map[])))))
  }

  /** Input `f` has an entry exactly when it has an issue, holding that
      issue's message. */
  predicate ErrorEntry(issue: FormField -> Option<Issue>, r: Errors, f: FormField) {
    && (f in r <==> issue(f).Some?)
    && (f in r ==> r[f] == PageMessage(f, issue(f).value))
  }

  lemma ErrorsFromAt(issue: FormField -> Option<Issue>, f: FormField)
    ensures ErrorEntry(issue, ErrorsFrom(issue), f)
  {
    match f
    case FullNameInput =>
    case EmailInput =>
    case PasswordInput =>
    case ConfirmInput =>
    case PhoneInput =>
  }

  /** `validateForm()`'s result: the form passes exactly when it produced
      no error, that is when each of its five inputs passes. */
  function ValidateForm(form: Form): (r: bool)
    ensures r <==> FormErrors(form) == map[]
  {
    NoErrorsIffEachInput(form);
    && InputIssue(form, FullNameInput).None? && InputIssue(form, EmailInput).None?
    && InputIssue(form, PasswordInput).None? && InputIssue(form, ConfirmInput).None?
    && InputIssue(form, PhoneInput).None?
  }

  lemma NoErrorsIffEachInput(form: Form)
    ensures FormErrors(form) == map[] <==>
      && InputIssue(form, FullNameInput).None? && InputIssue(form, EmailInput).None?
      && InputIssue(form, PasswordInput).None? && InputIssue(form, ConfirmInput).None?
      && InputIssue(form, PhoneInput).None?
  {
    if && InputIssue(form, FullNameInput).None? && InputIssue(form, EmailInput).None?
       && InputIssue(form, PasswordInput).None? && InputIssue(form, ConfirmInput).None?
       && InputIssue(form, PhoneInput).None?
    {
      forall f ensures f !in FormErrors(form) {
        match f
        case FullNameInput =>
        case EmailInput =>
        case PasswordInput =>
        case ConfirmInput =>
        case PhoneInput =>
      }
    }
  }

  /** The data the form sends: the four shared inputs, without the
      confirmation. */
  function ToSignUp(form: Form): SignUpData {
    SignUpData(Some(form.fullName), Some(form.email), Some(form.password), Some(form.phone))
  }

  /** The service accepts the sent data exactly when the four shared inputs
      pass on the page. */
  lemma ServiceValidIffSharedInputs(form: Form)
    ensures ValidateRegistrationData(ToSignUp(form)).isValid <==> SharedInputsPass(form)
  {
    var name, email, password, phone := InputIssue(form, FullNameInput), InputIssue(form, EmailInput),
                                        InputIssue(form, PasswordInput), InputIssue(form, PhoneInput);
    PageAgreesWithService(form);
    var v := ValidateRegistrationData(ToSignUp(form));
    assert v.errors == FieldErrors(name, email, password, phone);
  }

  /** Whatever passes the form passes the service's validator too; the form
      is stricter only in asking for a matching confirmation. */
  lemma FormPassesService(form: Form)
    ensures ValidateForm(form) <==> ValidateRegistrationData(ToSignUp(form)).isValid && ConfirmIssue(form).None?
  {
    ServiceValidIffSharedInputs(form);
    ValidateFormSplits(form);
    ConfirmInputIsConfirmIssue(form);
  }

  /** The four inputs the service also checks pass. */
  predicate SharedInputsPass(form: Form) {
    && InputIssue(form, FullNameInput).None? && InputIssue(form, EmailInput).None?
    && InputIssue(form, PasswordInput).None? && InputIssue(form, PhoneInput).None?
  }

  lemma ValidateFormSplits(form: Form)
    ensures ValidateForm(form) <==> SharedInputsPass(form) && InputIssue(form, ConfirmInput).None?
  {
  }

  lemma ConfirmInputIsConfirmIssue(form: Form)
    ensures InputIssue(form, ConfirmInput) == ConfirmIssue(form)
  {
  }

  /** An error is shown under an input iff its entry is truthy. */
  predicate ShowsError(errors: Errors, f: FormField) {
    f in errors && errors[f] != ""
  }

  function SetValue(form: Form, f: FormField, value: string): Form {
    match f
    case FullNameInput => form.(fullName := value)
    case EmailInput => form.(email := value)
    case PasswordInput => form.(password := value)
    case ConfirmInput => form.(confirmPassword := value)
    case PhoneInput => form.(phone := value)
  }

  /** The form and its errors, as `handleChange` sees them. */
  datatype Editing = Editing(form: Form, errors: Errors)

  /** `handleChange`: the named input takes the new value, and its error, if
      one is showing, is replaced by "". */
  function HandleChange(s: Editing, f: FormField, value: string): (r: Editing)
    ensures Value(r.form, f) == value
    ensures forall g :: g != f ==> Value(r.form, g) == Value(s.form, g)
    ensures !ShowsError(r.errors, f)
    ensures forall g :: g != f ==> (g in r.errors <==> g in s.errors) && (g in r.errors ==> r.errors[g] == s.errors[g])
    ensures !ShowsError(s.errors, f) ==> r.errors == s.errors
  {
    var errors := if ShowsError(s.errors, f) then s.errors[f := ""] else s.errors;
    Editing(SetValue(s.form, f, value), errors)
  }

  /** Typing the same value twice is typing it once. */
  lemma HandleChangeIdempotent(s: Editing, f: FormField, value: string)
    ensures HandleChange(HandleChange(s, f, value), f, value) == HandleChange(s, f, value)
  {
    var once := HandleChange(s, f, value);
    assert SetValue(once.form, f, value) == once.form by {
      match f
      case FullNameInput =>
      case EmailInput =>
      case PasswordInput =>
      case ConfirmInput =>
      case PhoneInput =>
    }
  }

  // ---------------------------------------------------------------------------
  // handleSubmit

  datatype PageState = PageState(form: Form, errors: Errors, loading: bool, location: Option<string>, toast: Toast)

  /** `handleSubmit` with the answer `registerUser` would resolve with. An
      invalid form stops before the call; a valid one ends with `loading`
      false whatever the answer. */
  function HandleSubmit<T>(s: PageState, outcome: FetchOutcome<T>): (r: PageState)
    ensures r.form == s.form && r.errors == FormErrors(s.form)
    ensures !ValidateForm(s.form) ==> r.loading == s.loading && r.location == s.location
                                      && r.toast == ErrorToast("Please fix the errors in the form")
    ensures ValidateForm(s.form) ==> !r.loading
  {
    var errors := FormErrors(s.form);
    if !ValidateForm(s.form) then
      s.(errors := errors, toast := ErrorToast("Please fix the errors in the form"))
    else
      Settled(s.(errors := errors), RegisterUser(outcome))
  }

  /** What the page does with `registerUser`'s answer: to /login on success,
      the service's message (or a fixed one when that is empty) otherwise;
      `loading` ends false either way. */
  function Settled<T>(s: PageState, reply: RegisterResult<T>): (r: PageState)
    ensures r.form == s.form && r.errors == s.errors && !r.loading
    ensures r.location == Some("/login") <==> reply.Registered? || s.location == Some("/login")
    ensures reply.NotRegistered? ==>
              r.location == s.location && r.toast == ErrorToast(OrElse(Some(reply.message), "Registration failed"))
  {
    match reply
    case Registered(_, _) =>
      s.(loading := false, location := Some("/login"), toast := SuccessToast("Registration successful! Please login."))
    case NotRegistered(message) =>
      s.(loading := false, toast := ErrorToast(if message != "" then message else "Registration failed"))
  }

  /** An invalid form never reaches `registerUser`: the outcome makes no
      difference. */
  lemma InvalidFormNeverRegisters<T>(s: PageState, a: FetchOutcome<T>, b: FetchOutcome<T>)
    requires !ValidateForm(s.form)
    ensures HandleSubmit(s, a) == HandleSubmit(s, b)
  {
  }

  /** A valid form goes to /login exactly when registration succeeded;
      otherwise it reports the service's message, or a fixed one when that
      is empty, and stays put. */
  lemma SubmitOutcome<T>(s: PageState, outcome: FetchOutcome<T>)
    requires ValidateForm(s.form)
    ensures HandleSubmit(s, outcome).location == Some("/login") <==>
              RegisterUser(outcome).Registered? || s.location == Some("/login")
    ensures RegisterUser(outcome).NotRegistered? ==>
              HandleSubmit(s, outcome).location == s.location
              && HandleSubmit(s, outcome).toast == ErrorToast(OrElse(Some(RegisterUser(outcome).message), "Registration failed"))
  {
    assert HandleSubmit(s, outcome) == Settled(s.(errors := FormErrors(s.form)), RegisterUser(outcome));
  }
}
