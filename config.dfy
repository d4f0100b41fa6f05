/** Where the router-and-controller entry point gets its token secret:
    `process.env.SECRET_KEY || <fallback>`, evaluated separately by the
    module that signs tokens and by the module that verifies them. */
module Config {
  import opened Wrappers
  import opened JsText
  import opened Crypto

  /** `env || fallback`: the environment value when it is a non-empty
      string, the fallback otherwise. */
  function SecretFrom(env: Option<string>, fallback: string): (secret: string)
    ensures Truthy(env) ==> secret == env.value
    ensures !Truthy(env) ==> secret == fallback
  {
    if Truthy(env) then env.value else fallback
  }

  /** The fallback of the module that signs tokens at login. */
  const AuthControllerFallback: string := "yourSecretKey"

  /** The fallback of the module that verifies tokens on task routes. */
  const TaskRoutesFallback: string := "123456"

  /** The secret login signs with, as written: SECRET_KEY when it is set,
      otherwise `'yourSecretKey'`; never empty, so signing never fails. */
  function AuthControllerSecret(env: Option<string>): (secret: string)
    ensures secret != ""
    ensures Truthy(env) ==> secret == env.value
    ensures !Truthy(env) ==> secret == AuthControllerFallback
  {
    SecretFrom(env, AuthControllerFallback)
  }

  /** The secret the task routes verify with, as written: SECRET_KEY when
      it is set, otherwise `'123456'`; never empty. */
  function TaskRoutesSecret(env: Option<string>): (secret: string)
    ensures secret != ""
    ensures Truthy(env) ==> secret == env.value
    ensures !Truthy(env) ==> secret == TaskRoutesFallback
  {
    SecretFrom(env, TaskRoutesFallback)
  }

  /** As written: when SECRET_KEY is set, signer and verifier agree ... */
  lemma ConfiguredSecretsAgree(env: Option<string>)
    requires Truthy(env)
    ensures AuthControllerSecret(env) == TaskRoutesSecret(env)
  {
  }

  /** ... but when it is unset, every token login issues is rejected by the
      gate of the task routes. */
  lemma UnsetSecretRejectsEveryToken(claims: Claims)
    ensures Sign(AuthControllerSecret(None), claims).Some?
    ensures Verify(TaskRoutesSecret(None), Sign(AuthControllerSecret(None), claims).value) == None
  {
    assert AuthControllerFallback[0] != TaskRoutesFallback[0];
    WrongSecretRejected(AuthControllerSecret(None), TaskRoutesSecret(None), claims);
  }

  /** The corrected configuration for the task routes: one secret shared
      with login, from SECRET_KEY or the same fallback login uses. It is
      never empty, so signing never fails. */
  function SharedSecret(env: Option<string>): (secret: string)
    ensures secret != ""
    ensures Truthy(env) ==> secret == env.value
  {
    SecretFrom(env, AuthControllerFallback)
  }

  /** With the shared secret, every token login issues passes the gate of
      the task routes with the claims it was issued for, whatever the
      environment says. */
  lemma SharedSecretAdmitsEveryToken(env: Option<string>, claims: Claims)
    ensures Sign(SharedSecret(env), claims).Some?
    ensures Verify(SharedSecret(env), Sign(SharedSecret(env), claims).value) == Some(claims)
  {
  }
}
