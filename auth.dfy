/** The admin check of lib/auth.ts: a bearer token in the Authorization
    header compared with the configured admin password. The header and the
    password (an environment variable) are parameters; None stands for an
    absent header or an unset variable. */
module Auth {
  import opened Common

  const BearerPrefix: string := "Bearer "

  predicate StartsWith(s: string, prefix: string)
  {
    |prefix| <= |s| && s[..|prefix|] == prefix
  }

  /** checkAdminAuth: None lets the request through, otherwise the error answer. */
  function CheckAdminAuth(authHeader: Option<string>, adminPassword: Option<string>): (r: Option<Response>)
    ensures adminPassword.None? || adminPassword.value == "" ==> r == Some(Response(500, "Admin access not configured"))
    ensures adminPassword.Some? && adminPassword.value != ""
            && (authHeader.None? || !StartsWith(authHeader.value, BearerPrefix))
            ==> r == Some(Response(401, "Unauthorized - Missing authentication"))
    ensures r.Some? ==> r.value.status in {401, 500}
  {
    if adminPassword.None? || adminPassword.value == "" then
      Some(Response(500, "Admin access not configured"))
    else if authHeader.None? || authHeader.value == "" || !StartsWith(authHeader.value, BearerPrefix) then
      Some(Response(401, "Unauthorized - Missing authentication"))
    else
      var token := authHeader.value[7..];
      if token != adminPassword.value then
        Some(Response(401, "Unauthorized - Invalid credentials"))
      else
        None
  }

  /** The request passes exactly when a non-empty password is configured and
      the header is "Bearer " followed by that password. */
  lemma AuthorizedIff(authHeader: Option<string>, adminPassword: Option<string>)
    ensures CheckAdminAuth(authHeader, adminPassword).None?
        <==> adminPassword.Some? && adminPassword.value != ""
             && authHeader == Some(BearerPrefix + adminPassword.value)
  {
    if adminPassword.Some? && adminPassword.value != "" && authHeader == Some(BearerPrefix + adminPassword.value) {
      assert authHeader.value[..7] == BearerPrefix;
      assert authHeader.value[7..] == adminPassword.value;
    }
    if CheckAdminAuth(authHeader, adminPassword).None? {
      var header := authHeader.value;
      assert header == header[..7] + header[7..];
    }
  }

  /** A well-formed header with the wrong token is refused as invalid. */
  lemma WrongTokenRefused(token: string, password: string)
    requires password != "" && token != password
    ensures CheckAdminAuth(Some(BearerPrefix + token), Some(password))
         == Some(Response(401, "Unauthorized - Invalid credentials"))
  {
    assert (BearerPrefix + token)[..7] == BearerPrefix;
    assert (BearerPrefix + token)[7..] == token;
  }
}
