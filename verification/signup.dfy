/**
 The top-level sign-up page (signup-page.tsx): no login field, the email
 doubles as the login, and the CPF mask leaves input with more than eleven
 digits unchanged.
 */
module Signup {
  import opened Wrappers
  import opened Text
  import opened Email
  import opened Cpf
  import opened SignupRules
  import opened ErrorMaps

  datatype SignupForm = SignupForm(email: string, cpf: string, password: string, confirmPassword: string)

  datatype User = User(email: string, cpf: string)
  datatype Credential = Credential(login: string, password: string)
  datatype Payload = Payload(user: User, credential: Credential)

  /** `handleCPFChange`: the CPF field holds the masked input, other fields are untouched. */
  function ChangeCpf(form: SignupForm, typed: string): (r: SignupForm)
    ensures r.cpf == FormatCpf(typed)
    ensures r.(cpf := form.cpf) == form
  {
    form.(cpf := FormatCpf(typed))
  }

  /** The error map `validateForm` stores. */
  function Errors(form: SignupForm): (r: map<string, string>)
    ensures r.Keys <= {"email", "cpf", "password", "confirmPassword"}
    ensures "email" in r <==> !EmailTest(form.email)
    ensures "email" in r ==> r["email"] == (if form.email == [] then EmailRequired else EmailInvalid)
    ensures "cpf" in r <==> !ValidateCpf(form.cpf)
    ensures "cpf" in r ==> r["cpf"] == (if form.cpf == [] then CpfRequired else CpfLength)
    ensures "password" in r <==> |form.password| < MinPasswordLength
    ensures "password" in r ==>
              r["password"] == (if form.password == [] then PasswordRequired else PasswordTooShort)
    ensures "confirmPassword" in r <==> form.confirmPassword == [] || form.confirmPassword != form.password
    ensures "confirmPassword" in r ==>
              r["confirmPassword"] == (if form.confirmPassword == [] then ConfirmRequired else ConfirmMismatch)
  {
    var e1 := Record(map[], "email", EmailError(form.email));
    var e2 := Record(e1, "cpf", CpfError(form.cpf));
    var e3 := Record(e2, "password", PasswordError(form.password));
    Record(e3, "confirmPassword", ConfirmError(form.password, form.confirmPassword))
  }

  /** `validateForm`: true exactly when the error map is empty. */
  function ValidateForm(form: SignupForm): (ok: bool)
    ensures ok <==>
              && EmailTest(form.email)
              && ValidateCpf(form.cpf)
              && |form.password| >= MinPasswordLength
              && form.confirmPassword == form.password
  {
    var errors := Errors(form);
    assert !EmailTest(form.email) ==> "email" in errors;
    assert !ValidateCpf(form.cpf) ==> "cpf" in errors;
    assert |form.password| < MinPasswordLength ==> "password" in errors;
    assert form.confirmPassword != form.password ==> "confirmPassword" in errors;
    |errors| == 0
  }

  /** The payload built on submission: the email is also the login. */
  function BuildPayload(form: SignupForm): (r: Payload)
    ensures AllDigits(r.user.cpf) && r.user.cpf == Digits(form.cpf)
    ensures r.user.email == form.email && r.credential.login == form.email
    ensures r.credential.password == form.password
  {
    Payload(User(form.email, Digits(form.cpf)), Credential(form.email, form.password))
  }

  /**
   A form that passed validation submits an eleven-digit CPF equal to the
   digits typed into the masked field, and a login that passes the email check.
   */
  lemma PayloadOfValidForm(form: SignupForm, typed: string)
    requires form.cpf == FormatCpf(typed)
    requires ValidateForm(form)
    ensures |BuildPayload(form).user.cpf| == CpfDigits
    ensures BuildPayload(form).user.cpf == Digits(typed)
    ensures EmailTest(BuildPayload(form).credential.login)
  {
    FormatCpfKeepsDigits(typed);
  }
}
