/**
 The sign-up page under components/auth: its form state, `validateForm`
 (email, CPF, login, password, confirmation), the CPF field's change
 handler and the request body sent to the backend.
 */
module AuthSignup {
  import opened Wrappers
  import opened Text
  import opened Email
  import opened Cpf
  import opened SignupRules
  import opened ErrorMaps

  datatype SignupForm = SignupForm(
    email: string, cpf: string, login: string, password: string, confirmPassword: string)

  datatype User = User(email: string, cpf: string)
  datatype Credential = Credential(login: string, password: string)
  datatype RequestBody = RequestBody(user: User, credential: Credential)

  /** `handleCPFChange`: the CPF field holds the masked input, other fields are untouched. */
  function ChangeCpf(form: SignupForm, typed: string): (r: SignupForm)
    ensures r.cpf == FormatCpfUnguarded(typed)
    ensures r.(cpf := form.cpf) == form
  {
    form.(cpf := FormatCpfUnguarded(typed))
  }

  /** The errors of the fields that identify the user: email, CPF and login. */
  function IdentityErrors(form: SignupForm): (r: map<string, string>)
    ensures r.Keys <= {"email", "cpf", "login"}
    ensures "email" in r <==> !EmailTest(form.email)
    ensures "email" in r ==> r["email"] == (if form.email == [] then EmailRequired else EmailInvalid)
    ensures "cpf" in r <==> !ValidateCpf(form.cpf)
    ensures "cpf" in r ==> r["cpf"] == (if form.cpf == [] then CpfRequired else CpfLength)
    ensures "login" in r <==> form.login == []
    ensures "login" in r ==> r["login"] == LoginRequired
  {
    var e1 := Record(map[], "email", EmailError(form.email));
    var e2 := Record(e1, "cpf", CpfError(form.cpf));
    Record(e2, "login", LoginError(form.login))
  }

  /** The error map `validateForm` stores. */
  function Errors(form: SignupForm): (r: map<string, string>)
    ensures r.Keys <= {"email", "cpf", "login", "password", "confirmPassword"}
    ensures "email" in r <==> !EmailTest(form.email)
    ensures "email" in r ==> r["email"] == (if form.email == [] then EmailRequired else EmailInvalid)
    ensures "cpf" in r <==> !ValidateCpf(form.cpf)
    ensures "cpf" in r ==> r["cpf"] == (if form.cpf == [] then CpfRequired else CpfLength)
    ensures "login" in r <==> form.login == []
    ensures "login" in r ==> r["login"] == LoginRequired
    ensures "password" in r <==> |form.password| < MinPasswordLength
    ensures "password" in r ==>
              r["password"] == (if form.password == [] then PasswordRequired else PasswordTooShort)
    ensures "confirmPassword" in r <==> form.confirmPassword == [] || form.confirmPassword != form.password
    ensures "confirmPassword" in r ==>
              r["confirmPassword"] == (if form.confirmPassword == [] then ConfirmRequired else ConfirmMismatch)
  {
    var e3 := IdentityErrors(form);
    var e4 := Record(e3, "password", PasswordError(form.password));
    Record(e4, "confirmPassword", ConfirmError(form.password, form.confirmPassword))
  }

  /** `validateForm`: true exactly when the error map is empty. */
  function ValidateForm(form: SignupForm): (ok: bool)
    ensures ok <==>
              && EmailTest(form.email)
              && ValidateCpf(form.cpf)
              && form.login != []
              && |form.password| >= MinPasswordLength
              && form.confirmPassword == form.password
  {
    var errors := Errors(form);
    assert !EmailTest(form.email) ==> "email" in errors;
    assert !ValidateCpf(form.cpf) ==> "cpf" in errors;
    assert form.login == [] ==> "login" in errors;
    assert |form.password| < MinPasswordLength ==> "password" in errors;
    assert form.confirmPassword != form.password ==> "confirmPassword" in errors;
    |errors| == 0
  }

  /** The body of the registration request. */
  function Request(form: SignupForm): (r: RequestBody)
    ensures AllDigits(r.user.cpf) && r.user.cpf == Digits(form.cpf)
    ensures r.user.email == form.email
    ensures r.credential == Credential(form.login, form.password)
  {
    RequestBody(User(form.email, Digits(form.cpf)), Credential(form.login, form.password))
  }

  /**
   A form that passed validation sends an eleven-digit CPF, and the digits
   are the ones typed into the masked field.
   */
  lemma RequestOfValidForm(form: SignupForm, typed: string)
    requires form.cpf == FormatCpfUnguarded(typed)
    requires ValidateForm(form)
    ensures |Request(form).user.cpf| == CpfDigits
    ensures Request(form).user.cpf == Digits(typed)
    ensures |Request(form).credential.password| >= MinPasswordLength
  {
    FormatCpfKeepsDigits(typed);
  }
}
