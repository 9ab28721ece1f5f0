/**
 * The authentication context (context/AuthContext.tsx): the table that turns
 * an authentication error code into a user-facing message, the choice
 * between that message and a per-operation fallback, and the provider's
 * `user`/`loading` state around login, signup and logout.
 *
 * The authentication service itself is not modelled: each call's outcome is
 * a parameter, and the `user` field changes only through the service's
 * auth-state callback, exactly as in the provider.
 */
module AuthContext {
  import opened Wrappers

  // ---------------------------------------------------------------------------
  // Messages
  // ---------------------------------------------------------------------------

  const InvalidEmailMessage := "Formato de e-mail inválido."
  const UserDisabledMessage := "Este usuário foi desabilitado."
  const BadCredentialsMessage := "E-mail ou senha inválidos."
  const EmailInUseMessage := "Este e-mail já está em uso por outra conta."
  const WeakPasswordMessage := "A senha é muito fraca. Use pelo menos 6 caracteres."
  const OperationNotAllowedMessage := "Login com e-mail/senha não está habilitado."
  const UnexpectedErrorMessage := "Ocorreu um erro inesperado. Tente novamente."

  const LoginFallbackMessage := "Falha ao fazer login. Verifique suas credenciais."
  const SignupFallbackMessage := "Falha ao criar a conta."
  const LogoutFallbackMessage := "Falha ao fazer logout."

  const LoginSuccessMessage := "Login realizado com sucesso!"
  const SignupSuccessMessage := "Conta criada com sucesso! Por favor, faça o login."
  const LogoutSuccessMessage := "Logout realizado com sucesso!"

  /** The error codes the table lists. */
  const KnownCodes: set<string> := {
    "auth/invalid-email", "auth/user-disabled", "auth/user-not-found", "auth/wrong-password",
    "auth/email-already-in-use", "auth/weak-password", "auth/operation-not-allowed"
  }

  /** Every message the table can produce. */
  const MappedMessages: set<string> := {
    InvalidEmailMessage, UserDisabledMessage, BadCredentialsMessage, EmailInUseMessage,
    WeakPasswordMessage, OperationNotAllowedMessage, UnexpectedErrorMessage
  }

  /** `mapFirebaseAuthError`: total; listed codes get their own message, every other code the generic one. */
  function MapFirebaseAuthError(code: string): (msg: string)
    ensures msg in MappedMessages
    ensures code !in KnownCodes <==> msg == UnexpectedErrorMessage
  {
    if code == "auth/invalid-email" then InvalidEmailMessage
    else if code == "auth/user-disabled" then UserDisabledMessage
    else if code == "auth/user-not-found" || code == "auth/wrong-password" then BadCredentialsMessage
    else if code == "auth/email-already-in-use" then EmailInUseMessage
    else if code == "auth/weak-password" then WeakPasswordMessage
    else if code == "auth/operation-not-allowed" then OperationNotAllowedMessage
    else UnexpectedErrorMessage
  }

  /** An unknown user and a wrong password are reported with the same words. */
  lemma BadCredentialsShareMessage()
    ensures MapFirebaseAuthError("auth/user-not-found") == MapFirebaseAuthError("auth/wrong-password")
    ensures MapFirebaseAuthError("auth/user-not-found") == BadCredentialsMessage
  {
  }

  /**
   * Two listed codes share a message only when they are the same code or
   * the unknown-user / wrong-password pair.
   */
  lemma KnownCodesDistinct(c1: string, c2: string)
    requires c1 in KnownCodes && c2 in KnownCodes
    ensures MapFirebaseAuthError(c1) == MapFirebaseAuthError(c2) <==>
              c1 == c2 || ({c1, c2} <= {"auth/user-not-found", "auth/wrong-password"})
  {
  }

  /** Each listed code gets a message of its own, none of them the generic one. */
  lemma ListedCodesMessages()
    ensures MapFirebaseAuthError("auth/invalid-email") == InvalidEmailMessage
    ensures MapFirebaseAuthError("auth/user-disabled") == UserDisabledMessage
    ensures MapFirebaseAuthError("auth/email-already-in-use") == EmailInUseMessage
    ensures MapFirebaseAuthError("auth/weak-password") == WeakPasswordMessage
    ensures MapFirebaseAuthError("auth/operation-not-allowed") == OperationNotAllowedMessage
    ensures UnexpectedErrorMessage !in {InvalidEmailMessage, UserDisabledMessage, BadCredentialsMessage,
                                        EmailInUseMessage, WeakPasswordMessage, OperationNotAllowedMessage}
  {
  }

  // ---------------------------------------------------------------------------
  // Choosing the message shown on failure
  // ---------------------------------------------------------------------------

  /** What a rejected authentication call carries: an optional `code` and an optional `message`. */
  datatype AuthError = AuthError(code: Option<string>, message: Option<string>)

  /** JavaScript truthiness of an optional string: present and non-empty. */
  predicate Truthy(s: Option<string>)
  {
    s.Some? && s.value != ""
  }

  /** `error.code ? mapFirebaseAuthError(error.code) : fallback` */
  function ErrorMessage(e: AuthError, fallback: string): (msg: string)
    ensures Truthy(e.code) ==> msg == MapFirebaseAuthError(e.code.value) && msg in MappedMessages
    ensures !Truthy(e.code) ==> msg == fallback
  {
    if Truthy(e.code) then MapFirebaseAuthError(e.code.value) else fallback
  }

  /** The login fallback is never one of the table's messages, so it appears exactly when the error has no code. */
  lemma LoginFallbackOnlyWithoutCode(e: AuthError)
    ensures ErrorMessage(e, LoginFallbackMessage) == LoginFallbackMessage <==> !Truthy(e.code)
  {
  }

  /** The same holds for the signup fallback. */
  lemma SignupFallbackOnlyWithoutCode(e: AuthError)
    ensures ErrorMessage(e, SignupFallbackMessage) == SignupFallbackMessage <==> !Truthy(e.code)
  {
  }

  /** Login and signup report a coded error identically and an uncoded one differently. */
  lemma LoginSignupAgreeOnCodes(e: AuthError)
    ensures Truthy(e.code) <==> ErrorMessage(e, LoginFallbackMessage) == ErrorMessage(e, SignupFallbackMessage)
  {
  }

  // ---------------------------------------------------------------------------
  // The provider
  // ---------------------------------------------------------------------------

  /** The toast a provider operation raises. */
  datatype Notice = Success(text: string) | Failure(text: string)

  /** How an awaited authentication call settled. */
  datatype Outcome = Resolved | Rejected(error: AuthError)

  /** An authenticated user, identified by its id. */
  type UserId = string

  class AuthProvider {
    var user: Option<UserId>
    var loading: bool

    /** Mounting: no user yet, loading until the first auth-state callback. */
    constructor()
      ensures user == None && loading
    {
      user := None;
      loading := true;
    }

    /** The auth-state listener: records the current user and ends loading. */
    method AuthStateChanged(current: Option<UserId>)
      modifies this
      ensures user == current && !loading
    {
      user := current;
      loading := false;
    }

    /** `login` up to its awaited sign-in call. */
    method BeginLogin()
      modifies this
      ensures loading && user == old(user)
    {
      loading := true;
    }

    /** `login` after the sign-in call settled: success or failure toast, navigation on success, and `finally` clears loading. */
    method EndLogin(outcome: Outcome) returns (notice: Notice, route: Option<string>)
      modifies this
      ensures !loading && user == old(user)
      ensures outcome.Resolved? ==> notice == Success(LoginSuccessMessage) && route == Some("/dashboard")
      ensures outcome.Rejected? ==>
                notice == Failure(ErrorMessage(outcome.error, LoginFallbackMessage)) && route == None
    {
      if outcome.Resolved? {
        notice, route := Success(LoginSuccessMessage), Some("/dashboard");
      } else {
        notice, route := Failure(ErrorMessage(outcome.error, LoginFallbackMessage)), None;
      }
      loading := false;
    }

    /** `signup` up to its awaited account-creation call. */
    method BeginSignup()
      modifies this
      ensures loading && user == old(user)
    {
      loading := true;
    }

    /** `signup` after the account-creation call settled; `finally` clears loading. */
    method EndSignup(outcome: Outcome) returns (notice: Notice, route: Option<string>)
      modifies this
      ensures !loading && user == old(user)
      ensures outcome.Resolved? ==> notice == Success(SignupSuccessMessage) && route == Some("/login")
      ensures outcome.Rejected? ==>
                notice == Failure(ErrorMessage(outcome.error, SignupFallbackMessage)) && route == None
    {
      if outcome.Resolved? {
        notice, route := Success(SignupSuccessMessage), Some("/login");
      } else {
        notice, route := Failure(ErrorMessage(outcome.error, SignupFallbackMessage)), None;
      }
      loading := false;
    }

    /**
     * `logout` after the sign-out call settled. It leaves `loading` and
     * `user` alone: the auth-state listener reports the signed-out user.
     */
    method Logout(outcome: Outcome) returns (notice: Notice, route: Option<string>)
      ensures outcome.Resolved? ==> notice == Success(LogoutSuccessMessage) && route == Some("/login")
      ensures outcome.Rejected? ==> route == None && notice.Failure? && notice.text != ""
      ensures outcome.Rejected? && Truthy(outcome.error.message) ==> notice.text == outcome.error.message.value
      ensures outcome.Rejected? && !Truthy(outcome.error.message) ==> notice.text == LogoutFallbackMessage
    {
      if outcome.Resolved? {
        notice, route := Success(LogoutSuccessMessage), Some("/login");
      } else {
        var m := outcome.error.message;
        notice, route := Failure(if Truthy(m) then m.value else LogoutFallbackMessage), None;
      }
    }
  }

  /**
   * A login attempt, start to finish: whatever the sign-in call does,
   * loading is off again afterwards and the user is untouched.
   */
  method LoginAttempt(p: AuthProvider, outcome: Outcome) returns (notice: Notice)
    modifies p
    ensures !p.loading && p.user == old(p.user)
    ensures notice.Failure? <==> outcome.Rejected?
  {
    p.BeginLogin();
    assert p.loading;
    var route;
    notice, route := p.EndLogin(outcome);
  }
}
