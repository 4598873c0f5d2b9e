/**
 The per-field rules that both sign-up pages apply in `validateForm`. Each
 field gets at most one message; for a field with two rules the "required"
 message is checked first and the format message only for non-empty input.
 */
module SignupRules {
  import opened Wrappers
  import opened Email
  import opened Cpf

  const EmailRequired := "Email é obrigatório"
  const EmailInvalid := "Email inválido"
  const CpfRequired := "CPF é obrigatório"
  const CpfLength := "CPF deve ter 11 dígitos"
  const LoginRequired := "Login é obrigatório"
  const PasswordRequired := "Senha é obrigatória"
  const PasswordTooShort := "Senha deve ter pelo menos 6 caracteres"
  const ConfirmRequired := "Confirmação de senha é obrigatória"
  const ConfirmMismatch := "Senhas não coincidem"

  const MinPasswordLength := 6

  function EmailError(email: string): (e: Option<string>)
    ensures e.None? <==> EmailTest(email)
    ensures email == [] ==> e == Some(EmailRequired)
  {
    if email == [] then Some(EmailRequired)
    else if !EmailTest(email) then Some(EmailInvalid)
    else None
  }

  function CpfError(cpf: string): (e: Option<string>)
    ensures e.None? <==> ValidateCpf(cpf)
    ensures cpf == [] ==> e == Some(CpfRequired)
  {
    if cpf == [] then Some(CpfRequired)
    else if !ValidateCpf(cpf) then Some(CpfLength)
    else None
  }

  function LoginError(login: string): (e: Option<string>)
    ensures e.None? <==> login != []
    ensures e.Some? ==> e.value == LoginRequired
  {
    if login == [] then Some(LoginRequired) else None
  }

  function PasswordError(password: string): (e: Option<string>)
    ensures e.None? <==> |password| >= MinPasswordLength
    ensures password == [] ==> e == Some(PasswordRequired)
  {
    if password == [] then Some(PasswordRequired)
    else if |password| < MinPasswordLength then Some(PasswordTooShort)
    else None
  }

  function ConfirmError(password: string, confirm: string): (e: Option<string>)
    ensures e.None? <==> confirm != [] && confirm == password
    ensures confirm == [] ==> e == Some(ConfirmRequired)
  {
    if confirm == [] then Some(ConfirmRequired)
    else if password != confirm then Some(ConfirmMismatch)
    else None
  }
}
