/** The environment check the client runs before asking for a token, as the
    constructor writes it and as intended (the OAuth2 client id and client secret
    both set and not blank once trimmed). */
module Configuration {

  datatype Option<T> = None | Some(value: T)

  /** The client-credentials pair handed to the identity provider. */
  datatype Credentials = Credentials(clientId: string, clientSecret: string)

  const ClientIdVar := "CLIENT_ID"
  const ClientSecretVar := "CLIENT_SECRET"

  /** The characters PHP's `trim` strips by default. */
  const TrimmedChars: set<char> := {' ', '\t', '\n', '\r', '\0', '\U{000B}'}

  /** The value is empty once trimmed: every character is one `trim` strips. */
  predicate Blank(s: string)
  {
    forall i :: 0 <= i < |s| ==> s[i] in TrimmedChars
  }

  /** `required(name)->notEmpty()`: the variable is set, and its value is not empty
      once trimmed. */
  predicate RequiredNotEmpty(env: map<string, string>, name: string)
  {
    name in env && !Blank(env[name])
  }

  /** `getenv(name)`, with an unset variable read as "" (PHP returns `false`). */
  function GetEnv(env: map<string, string>, name: string): (v: string)
    ensures name in env ==> v == env[name]
    ensures RequiredNotEmpty(env, name) <==> !Blank(v)
    ensures RequiredNotEmpty(env, name) ==> v != ""
  {
    if name in env then env[name] else ""
  }

  /** The check as the constructor writes it: CLIENT_ID is validated twice and
      CLIENT_SECRET never, so whatever CLIENT_SECRET holds is passed on. */
  function LoadCredentialsAsWritten(env: map<string, string>): (r: Option<Credentials>)
    ensures r.Some? <==> RequiredNotEmpty(env, ClientIdVar)
    ensures r.Some? ==> r.value == Credentials(env[ClientIdVar], GetEnv(env, ClientSecretVar))
  {
    if RequiredNotEmpty(env, ClientIdVar) && RequiredNotEmpty(env, ClientIdVar)
    then Some(Credentials(GetEnv(env, ClientIdVar), GetEnv(env, ClientSecretVar)))
    else None
  }

  /** An environment with a client id and no client secret passes the check as
      written and yields an empty secret. */
  lemma AsWrittenAcceptsMissingSecret()
    ensures LoadCredentialsAsWritten(map[ClientIdVar := "id"]) == Some(Credentials("id", ""))
    ensures LoadCredentialsAsWritten(map[ClientIdVar := "id", ClientSecretVar := ""]) == Some(Credentials("id", ""))
  {
    assert "id"[0] !in TrimmedChars;
  }

  /** A client id made only of whitespace fails the check, as written too: the
      value is trimmed before the emptiness test. */
  lemma BlankIdRejected()
    ensures LoadCredentialsAsWritten(map[ClientIdVar := " \t"]) == None
    ensures LoadCredentials(map[ClientIdVar := " \t", ClientSecretVar := "secret"]) == None
  {
  }

  /** The check as intended: both variables are required and not blank, and the
      credentials are exactly their values. */
  function LoadCredentials(env: map<string, string>): (r: Option<Credentials>)
    ensures r.Some? <==> RequiredNotEmpty(env, ClientIdVar) && RequiredNotEmpty(env, ClientSecretVar)
    ensures r.Some? ==> !Blank(r.value.clientId) && !Blank(r.value.clientSecret)
    ensures r.Some? ==> r.value.clientId != "" && r.value.clientSecret != ""
    ensures r.Some? ==> r.value == Credentials(env[ClientIdVar], env[ClientSecretVar])
  {
    if RequiredNotEmpty(env, ClientIdVar) && RequiredNotEmpty(env, ClientSecretVar)
    then Some(Credentials(GetEnv(env, ClientIdVar), GetEnv(env, ClientSecretVar)))
    else None
  }

  /** The corrected check accepts exactly what the written one accepts, less the
      environments whose secret is missing, empty or blank, and then agrees with it. */
  lemma CorrectedRefinesAsWritten(env: map<string, string>)
    ensures LoadCredentials(env).Some? <==>
      LoadCredentialsAsWritten(env).Some? && RequiredNotEmpty(env, ClientSecretVar)
    ensures LoadCredentials(env).Some? ==> LoadCredentials(env) == LoadCredentialsAsWritten(env)
  {
  }
}
