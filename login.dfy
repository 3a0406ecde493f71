/** The sign-in page (site/src/login/presenter/LoginPage.js): the field rules
    of its schema, the request it sends, and how it reads the response's
    status into an error line or a navigation. */
module Login {
  import opened Replies
  import opened Text

  /** Field values as the form submits them. */
  datatype LoginForm = LoginForm(email: string, password: string)

  const EmailRequired := "Insira um email"
  const EmailMalformed := "Insira um email válido"
  /** The message of the email length rule; its text names 100 while the
      rule enforces 50. */
  const EmailTooLong := "O limite máximo é de 100 caractres"
  const EmailMaxLength := 50

  const PasswordRequired := "Insira uma senha"
  const PasswordTooShort := "A senha precisa ter pelo menos 4 caracteres"
  const PasswordTooLong := "O limite máximo é de 50 caractres"
  const PasswordMinLength := 4
  const PasswordMaxLength := 50

  const InvalidCredentials := "Usuário ou senha inválidos"
  const ServerProblem := "Estamos com problemas"
  const HomeRoute := "/Inicio"

  /** The message shown under the email field: that of the first rule, in
      the order the schema declares them, that `email` breaks. Whether the
      text has the shape of an email address is decided by the validation
      library and comes in as `wellFormed`. The empty string is every
      field's "missing" value; lengths are JavaScript lengths (UTF-16 code
      units). */
  function EmailError(email: string, wellFormed: bool): (r: Option<string>)
    ensures r == None <==> email != "" && wellFormed && Utf16Length(email) <= EmailMaxLength
    ensures r == Some(EmailRequired) <==> email == ""
    ensures r == Some(EmailMalformed) <==> email != "" && !wellFormed
    ensures r == Some(EmailTooLong) <==>
              email != "" && wellFormed && Utf16Length(email) > EmailMaxLength
  {
    if email == "" then Some(EmailRequired)
    else if !wellFormed then Some(EmailMalformed)
    else if Utf16Length(email) > EmailMaxLength then Some(EmailTooLong)
    else None
  }

  /** The message shown under the password field, by the same first-broken-rule
      reading and the same JavaScript length. */
  function PasswordError(password: string): (r: Option<string>)
    ensures r == None <==> PasswordMinLength <= Utf16Length(password) <= PasswordMaxLength
    ensures r == Some(PasswordRequired) <==> password == ""
    ensures r == Some(PasswordTooShort) <==>
              password != "" && Utf16Length(password) < PasswordMinLength
    ensures r == Some(PasswordTooLong) <==> Utf16Length(password) > PasswordMaxLength
  {
    if password == "" then Some(PasswordRequired)
    else if Utf16Length(password) < PasswordMinLength then Some(PasswordTooShort)
    else if Utf16Length(password) > PasswordMaxLength then Some(PasswordTooLong)
    else None
  }

  /** Two characters outside the Basic Multilingual Plane already make a
      password of the minimum length, and a password of characters all
      inside it is measured by its character count. */
  lemma PasswordLengthInCodeUnits(password: string)
    ensures PasswordError("\U{1F600}\U{1F600}") == None
    ensures (forall i :: 0 <= i < |password| ==> CodeUnits(password[i]) == 1) ==>
              (PasswordError(password) == None <==> PasswordMinLength <= |password| <= PasswordMaxLength)
  {
    assert Utf16Length("\U{1F600}\U{1F600}") == 4 by {
      assert "\U{1F600}\U{1F600}"[1..] == "\U{1F600}";
      assert "\U{1F600}"[1..] == "";
    }
  }

  /** The form passes the schema, so the submit handler runs. */
  predicate FormAccepted(form: LoginForm, wellFormed: bool)
  {
    EmailError(form.email, wellFormed) == None && PasswordError(form.password) == None
  }

  /** The request path: the two fields are spliced in verbatim, with no encoding. */
  function SignInPath(ipAPI: string, email: string, password: string): (r: string)
    ensures |r| == |ipAPI| + 15 + |email| + |password|
    ensures r[..|ipAPI|] == ipAPI && r[|ipAPI|..|ipAPI| + 14] == "/login/signin/"
  {
    ipAPI + "/login/signin/" + email + "/" + password
  }

  /** After the fixed prefix, the string handed to `fetch` is the email, a
      slash and the password, unescaped; splitting that string at its first
      slash gives the email back exactly when the email contains no slash.
      This is a statement about the string, not about the URL that `fetch`
      makes of it. */
  lemma SignInPathSegments(ipAPI: string, email: string, password: string)
    ensures SignInPath(ipAPI, email, password)[|ipAPI| + 14..] == email + "/" + password
    ensures (SplitFirst(SignInPath(ipAPI, email, password)[|ipAPI| + 14..], '/') == (email, password))
              <==> Free(email, '/')
  {
    var path := SignInPath(ipAPI, email, password);
    assert path == (ipAPI + "/login/signin/") + (email + "/" + password);
    assert path[|ipAPI| + 14..] == email + "/" + password;
    SplitJoin(email, '/', password);
  }

  /** How the `fetch` call ended: it was rejected (network failure), or a
      response arrived with `status`, whose body does or does not parse as
      JSON. */
  datatype FetchOutcome = NetworkError | Responded(status: int, bodyIsJson: bool)

  /** The `ok` attribute of a fetch response: a status from 200 to 299. */
  predicate IsOk(status: int)
  {
    200 <= status <= 299
  }

  /** The effect of one sign-in attempt on the page: the error line is set
      to `message` and the chain stops; the error line is cleared and the
      browser goes to the home route; or the rejection is swallowed by the
      empty `catch` with nothing changed. */
  datatype SignIn = Refused(message: string) | SignedIn | Swallowed

  /** The chain of `then` handlers and the empty `catch`. Status 204 is
      tested before `ok`, so it is refused although it is in the ok range. */
  function SignInResult(outcome: FetchOutcome): (r: SignIn)
    ensures r == Refused(InvalidCredentials) <==> outcome.Responded? && outcome.status == 204
    ensures r == Refused(ServerProblem) <==> outcome.Responded? && !IsOk(outcome.status)
    ensures r == SignedIn <==>
              outcome.Responded? && IsOk(outcome.status) && outcome.status != 204 && outcome.bodyIsJson
    ensures r == Swallowed <==>
              outcome.NetworkError? ||
              (IsOk(outcome.status) && outcome.status != 204 && !outcome.bodyIsJson)
  {
    match outcome
    case NetworkError => Swallowed
    case Responded(status, bodyIsJson) =>
      if status == 204 then Refused(InvalidCredentials)
      else if !IsOk(status) then Refused(ServerProblem)
      else if bodyIsJson then SignedIn
      else Swallowed
  }

  /** Only a 2xx status other than 204 whose body parses ever signs in, and a
      204 is refused although `ok` holds for it. */
  lemma SignedInOnlyOnOkBody(outcome: FetchOutcome)
    ensures SignInResult(outcome) == SignedIn ==>
              outcome.Responded? && 200 <= outcome.status <= 299 && outcome.status != 204
    ensures IsOk(204) && SignInResult(Responded(204, true)) == Refused(InvalidCredentials)
  {
  }

  /** The state of one mounted `LoginPage`: the error line, the routes it
      navigated to and the paths it requested. */
  class LoginPage {
    var error: string
    var navigations: seq<string>
    var requests: seq<string>

    /** `useState('')`. */
    constructor ()
      ensures error == "" && navigations == [] && requests == []
    {
      error := "";
      navigations := [];
      requests := [];
    }

    /** `onSubmit` run to the end of its promise chain. The request is
      always sent; then a 204 sets the invalid-credentials line, any other
      status outside 200..299 sets the server-problem line, and either
      throws into the empty `catch` without navigating; otherwise, if the
      body parses, the line is cleared and the page goes to the home route. */
    method OnSubmit(ipAPI: string, form: LoginForm, outcome: FetchOutcome)
      modifies this
      ensures requests == old(requests) + [SignInPath(ipAPI, form.email, form.password)]
      ensures SignInResult(outcome).Refused? ==>
                error == SignInResult(outcome).message && navigations == old(navigations)
      ensures SignInResult(outcome) == SignedIn ==>
                error == "" && navigations == old(navigations) + [HomeRoute]
      ensures SignInResult(outcome) == Swallowed ==>
                error == old(error) && navigations == old(navigations)
    {
      requests := requests + [SignInPath(ipAPI, form.email, form.password)];
      match outcome {
        case NetworkError =>
          return;
        case Responded(status, bodyIsJson) =>
          if status == 204 {
            error := InvalidCredentials;
            return;
          } else if !IsOk(status) {
            error := ServerProblem;
            return;
          }
          if !bodyIsJson {
            return;
          }
          error := "";
          navigations := navigations + [HomeRoute];
      }
    }

    /** `handleSubmit(onSubmit)`: the handler runs only for a form the schema
      accepts; a rejected form sends nothing and changes nothing here (the
      field messages are `EmailError` and `PasswordError`). */
    method HandleSubmit(ipAPI: string, form: LoginForm, wellFormed: bool, outcome: FetchOutcome)
      modifies this
      ensures !FormAccepted(form, wellFormed) ==>
                error == old(error) && navigations == old(navigations) && requests == old(requests)
      ensures FormAccepted(form, wellFormed) ==>
                requests == old(requests) + [SignInPath(ipAPI, form.email, form.password)]
      ensures FormAccepted(form, wellFormed) && SignInResult(outcome) == SignedIn ==>
                error == "" && navigations == old(navigations) + [HomeRoute]
      ensures FormAccepted(form, wellFormed) && SignInResult(outcome).Refused? ==>
                error == SignInResult(outcome).message && navigations == old(navigations)
      ensures FormAccepted(form, wellFormed) && SignInResult(outcome) == Swallowed ==>
                error == old(error) && navigations == old(navigations)
    {
      if FormAccepted(form, wellFormed) {
        OnSubmit(ipAPI, form, outcome);
      }
    }
  }
}
