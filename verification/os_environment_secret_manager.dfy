/** Secret lookup in the process environment. The environment is a value
    passed in, so the lookup cannot change it. */
module OsEnvironmentSecretManager {
  import opened Exceptions
  import opened Strings

  /** The process environment: variable name to value. */
  type Environment = map<string, string>

  function MissingSecretMessage(secretName: string): string
  {
    "Secret '" + secretName + "' not found in environment variables."
  }

  /** `get_secret`: the variable's value, or a KeyError naming the secret
      when the variable is not set. An empty value is a value like any other. */
  function GetSecret(env: Environment, secretName: string): (r: Result<string>)
    ensures r.Ok? <==> secretName in env
    ensures r.Ok? ==> r.value == env[secretName]
    ensures r.Raise? ==> r.exception.KeyError? && Contains(r.exception.message, secretName)
  {
    if secretName !in env then
      ContainsMiddle("Secret '", secretName, "' not found in environment variables.");
      Raise(KeyError(MissingSecretMessage(secretName)))
    else
      Ok(env[secretName])
  }

  /** A variable set to the empty string is found, not reported missing. */
  lemma EmptySecretIsFound(env: Environment, secretName: string)
    requires secretName in env && env[secretName] == ""
    ensures GetSecret(env, secretName) == Ok("")
  {
  }
}
