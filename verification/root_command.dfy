/** The root command's pre-run hook: log level, required flags, login. */
module RootCommand {
  import opened Errors

  /** The settings store: whether a key was set, and its value as a string. */
  datatype Viper = Viper(isSet: string -> bool, getString: string -> string)

  /** Flags that must be given; `account` has a default and is not among them. */
  const RequiredFlags: seq<string> := ["username", "password"]

  predicate Missing(v: Viper, flag: string)
  {
    !v.isSet(flag) || v.getString(flag) == ""
  }

  /** xs is ys with some elements dropped, order kept. */
  predicate IsSubsequence<T(==)>(xs: seq<T>, ys: seq<T>)
    decreases |ys|
  {
    if xs == [] then true
    else if ys == [] then false
    else if xs[0] == ys[0] then IsSubsequence(xs[1..], ys[1..])
    else IsSubsequence(xs, ys[1..])
  }

  /** The flags in `flags` that are missing, in the order of `flags`. */
  function UnsetFlags(v: Viper, flags: seq<string>): (r: seq<string>)
    ensures forall f :: f in r <==> f in flags && Missing(v, f)
    ensures IsSubsequence(r, flags)
    decreases |flags|
  {
    if flags == [] then []
    else
      var rest := UnsetFlags(v, flags[1..]);
      if Missing(v, flags[0]) then [flags[0]] + rest else rest
  }

  datatype Credentials = Credentials(account: string, username: string, password: string)

  /** The login attempted, if any, and the hook's result. */
  datatype PreRun = PreRun(login: Option<Credentials>, result: Result<()>)

  /** PersistentPreRunE. The log-level parser and the login are parameters; each
      returns the error it reports, if any. */
  function PersistentPreRun(v: Viper, levelError: string -> Option<string>, login: Credentials -> Option<string>): (r: PreRun)
    ensures levelError(v.getString("log-level")).Some? ==>
      r == PreRun(None, Err(LogLevelInvalid(levelError(v.getString("log-level")).value)))
    ensures levelError(v.getString("log-level")).None? && UnsetFlags(v, RequiredFlags) != [] ==>
      r == PreRun(None, Err(MissingRequiredFlags))
    ensures r.login.Some? ==>
      r.login.value == Credentials(v.getString("account"), v.getString("username"), v.getString("password"))
    ensures r.login.Some? ==> (r.result.Ok? <==> login(r.login.value).None?)
    ensures r.result.Ok? ==> r.login.Some?
  {
    match levelError(v.getString("log-level"))
    case Some(e) => PreRun(None, Err(LogLevelInvalid(e)))
    case None =>
      if UnsetFlags(v, RequiredFlags) != [] then PreRun(None, Err(MissingRequiredFlags))
      else
        var creds := Credentials(v.getString("account"), v.getString("username"), v.getString("password"));
        match login(creds)
        case Some(e) => PreRun(Some(creds), Err(LoginFailed(e)))
        case None => PreRun(Some(creds), Ok(()))
  }

  /** Login is attempted exactly when the log level is valid and both username and
      password are set and non-empty; the account plays no part in that decision. */
  lemma LoginAttemptedIff(v: Viper, levelError: string -> Option<string>, login: Credentials -> Option<string>)
    ensures PersistentPreRun(v, levelError, login).login.Some? <==>
      levelError(v.getString("log-level")).None? && !Missing(v, "username") && !Missing(v, "password")
  {
    var u := UnsetFlags(v, RequiredFlags);
    if Missing(v, "username") {
      assert "username" in u;
    }
    if Missing(v, "password") {
      assert "password" in u;
    }
    if u != [] {
      assert u[0] in u;
    }
  }

  /** Which flags are reported missing: username before password, each only when unset or empty. */
  lemma MissingFlagsReported(v: Viper)
    ensures UnsetFlags(v, RequiredFlags) ==
      (if Missing(v, "username") then ["username"] else []) + (if Missing(v, "password") then ["password"] else [])
  {
    assert RequiredFlags[1..] == ["password"];
    assert RequiredFlags[1..][1..] == [];
  }
}
