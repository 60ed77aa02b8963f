/** The request proxy: a prefix-based decision on the path and the
    caller's token (redirect, refuse, or pass through), and for a request
    that passes, the loop that writes the security headers into the
    response. The token is an input; the environment is a flag. */
module Proxy {
  import opened Wrappers
  import opened Text
  import opened Records

  /** The decoded session token: its `role` claim, if any. */
  datatype TokenClaims = TokenClaims(role: Option<string>)

  const ADMIN := "ADMIN"
  const SIGN_IN := "/auth/sign-in"
  const HOME := "/home"
  const DASHBOARD := "/dashboard"
  const AUTH := "/auth"
  const API_ADMIN := "/api/admin"

  datatype Decision = Redirect(to: string) | Unauthorized | Next

  predicate IsAdmin(token: Option<TokenClaims>) {
    token.Some? && token.value.role == Some(ADMIN)
  }

  /** The chain of prefix tests, in the order the proxy applies them. */
  function Decide(pathname: string, token: Option<TokenClaims>): Decision {
    var isAuth := token.Some?;
    var isAdmin := IsAdmin(token);
    if StartsWith(pathname, DASHBOARD) && !isAuth then Redirect(SIGN_IN)
    else if StartsWith(pathname, DASHBOARD) && !isAdmin then Redirect(HOME)
    else if StartsWith(pathname, HOME) && !isAuth then Redirect(SIGN_IN)
    else if StartsWith(pathname, HOME) && isAdmin then Redirect(DASHBOARD)
    else if StartsWith(pathname, AUTH) && isAuth then Redirect(if isAdmin then DASHBOARD else HOME)
    else if StartsWith(pathname, API_ADMIN) && !isAdmin then Unauthorized
    else Next
  }

  /** Anonymous callers of a dashboard or home path go to the sign-in
      page; signed-in callers are sent to the area that fits their role. */
  lemma ProtectedAreas(pathname: string, token: Option<TokenClaims>)
    ensures (StartsWith(pathname, DASHBOARD) || StartsWith(pathname, HOME)) && token.None? ==>
      Decide(pathname, token) == Redirect(SIGN_IN)
    ensures StartsWith(pathname, DASHBOARD) && token.Some? && !IsAdmin(token) ==> Decide(pathname, token) == Redirect(HOME)
    ensures StartsWith(pathname, HOME) && IsAdmin(token) ==> Decide(pathname, token) == Redirect(DASHBOARD)
    ensures StartsWith(pathname, AUTH) && token.Some? ==>
      Decide(pathname, token) == Redirect(if IsAdmin(token) then DASHBOARD else HOME)
    ensures StartsWith(pathname, AUTH) && token.None? ==> Decide(pathname, token) == Next
    ensures StartsWith(pathname, API_ADMIN) && !IsAdmin(token) ==> Decide(pathname, token) == Unauthorized
  {
    assert DASHBOARD[1] == 'd' && HOME[1] == 'h' && AUTH[1] == 'a' && API_ADMIN[1] == 'a' && API_ADMIN[2] == 'p';
    assert AUTH[2] == 'u';
  }

  /** Matching is by prefix: "/homework" and "/dashboardx" are guarded too. */
  lemma PrefixMatching()
    ensures Decide("/homework", None) == Redirect(SIGN_IN)
    ensures Decide("/dashboardx", Some(TokenClaims(Some("USER")))) == Redirect(HOME)
  {
    assert StartsWith("/homework", HOME) by { assert "/homework"[..|HOME|] == HOME; }
    assert StartsWith("/dashboardx", DASHBOARD) by { assert "/dashboardx"[..|DASHBOARD|] == DASHBOARD; }
    assert !StartsWith("/homework", DASHBOARD) by { assert "/homework"[1] != DASHBOARD[1]; }
  }

  /** Following a redirect, the same caller is let through: there are no
      redirect loops. */
  lemma NoRedirectLoops(pathname: string, token: Option<TokenClaims>)
    requires Decide(pathname, token).Redirect?
    ensures Decide(Decide(pathname, token).to, token) == Next
  {
    var to := Decide(pathname, token).to;
    assert SIGN_IN[1] == 'a' && SIGN_IN[2] == 'u' && SIGN_IN[..|AUTH|] == AUTH;
    assert HOME[1] == 'h' && DASHBOARD[1] == 'd' && API_ADMIN[1] == 'a' && API_ADMIN[2] == 'p';
    assert StartsWith(HOME, HOME) && StartsWith(DASHBOARD, DASHBOARD);
    assert !StartsWith(HOME, DASHBOARD) && !StartsWith(DASHBOARD, HOME);
  }

  const HSTS := "Strict-Transport-Security"

  /** `securityHeaders`: five fixed headers, and HSTS in production. */
  function SecurityHeaders(production: bool): Entries {
    [("X-Frame-Options", Str("DENY")),
     ("X-Content-Type-Options", Str("nosniff")),
     ("X-XSS-Protection", Str("1; mode=block")),
     ("Referrer-Policy", Str("strict-origin-when-cross-origin")),
     ("Permissions-Policy", Str("camera=(), microphone=(), geolocation=()"))] +
    (if production then [(HSTS, Str("max-age=31536000; includeSubDomains"))] else [])
  }

  /** A response's header list. */
  class Headers {
    var entries: Entries

    constructor()
      ensures entries == []
    {
      entries := [];
    }

    /** `headers.set(key, value)`. */
    method Set(key: string, value: string)
      modifies this
      ensures entries == Assign(old(entries), key, Str(value))
    {
      entries := Assign(entries, key, Str(value));
    }
  }

  /** A request's outcome: a redirect, the JSON refusal, a pass with the
      security headers, or `Skipped` when the proxy does not run at all. */
  datatype Response = Redirected(location: string) | Json(status: int, error: string) | Pass(headers: Headers) | Skipped

  /** `proxy(req)`. */
  method HandleRequest(pathname: string, token: Option<TokenClaims>, production: bool) returns (r: Response)
    ensures Decide(pathname, token).Redirect? ==> r == Redirected(Decide(pathname, token).to)
    ensures Decide(pathname, token).Unauthorized? ==> r == Json(401, "Unauthorized")
    ensures Decide(pathname, token).Next? ==>
      r.Pass? && fresh(r.headers) && r.headers.entries == AssignAll([], SecurityHeaders(production))
  {
    var decision := Decide(pathname, token);
    if decision.Redirect? {
      return Redirected(decision.to);
    }
    if decision.Unauthorized? {
      return Json(401, "Unauthorized");
    }
    var headers := new Headers();
    var list := SecurityHeaders(production);
    var i := 0;
    while i < |list|
      invariant 0 <= i <= |list|
      invariant headers.entries == AssignAll([], list[..i])
    {
      AssignAllSnoc([], list[..i], list[i].0, list[i].1);
      assert list[..i + 1] == list[..i] + [(list[i].0, list[i].1)];
      headers.Set(list[i].0, list[i].1.s);
      i := i + 1;
    }
    assert list[..i] == list;
    r := Pass(headers);
  }

  /** The headers written are exactly the listed ones with their values,
      and HSTS is among them exactly in production. */
  lemma PassedHeaders(production: bool, k: string)
    ensures Lookup(AssignAll([], SecurityHeaders(production)), k) == Lookup(SecurityHeaders(production), k)
    ensures Lookup(AssignAll([], SecurityHeaders(production)), HSTS).Some? <==> production
    ensures |AssignAll([], SecurityHeaders(production))| == if production then 6 else 5
  {
    var list := SecurityHeaders(production);
    assert KeysUnique(list);
    LookupAssignAll([], list, k);
    LookupAssignAll([], list, HSTS);
    LookupFinds(list, HSTS);
    assert production ==> list[5].0 == HSTS;
    AssignAllKeys([], list);
  }

  const IMAGE_EXTENSIONS: seq<string> := ["svg", "png", "jpg", "jpeg", "gif", "webp"]

  /** The text ends in a dot and one of the image extensions. */
  predicate ImagePath(rest: string) {
    exists e :: e in IMAGE_EXTENSIONS && |e| + 1 <= |rest| && rest[|rest| - |e| - 1..] == "." + e
  }

  /** The favicon alternative of the matcher: its dot is not escaped, so
      any one character may stand between "favicon" and "ico". */
  predicate FaviconPrefix(rest: string) {
    |rest| >= 11 && rest[..7] == "favicon" && rest[8..11] == "ico"
  }

  /** `config.matcher`: the proxy runs on every path except those whose
      text after the leading slash starts with `_next/static`,
      `_next/image` or the favicon name, or ends in an image extension.
      A URL pathname holds no raw line terminator, so the pattern's `.*`
      spans the whole path. */
  predicate Matched(pathname: string) {
    |pathname| >= 1 && pathname[0] == '/' &&
    var rest := pathname[1..];
    !StartsWith(rest, "_next/static") && !StartsWith(rest, "_next/image") && !FaviconPrefix(rest) && !ImagePath(rest)
  }

  /** A request as the framework serves it: the proxy runs only on matched
      paths, and any other request goes on untouched, with no redirect, no
      401 and no security headers. */
  method Serve(pathname: string, token: Option<TokenClaims>, production: bool) returns (r: Response)
    ensures !Matched(pathname) ==> r == Skipped
    ensures Matched(pathname) && Decide(pathname, token).Redirect? ==> r == Redirected(Decide(pathname, token).to)
    ensures Matched(pathname) && Decide(pathname, token).Unauthorized? ==> r == Json(401, "Unauthorized")
    ensures Matched(pathname) && Decide(pathname, token).Next? ==>
      r.Pass? && fresh(r.headers) && r.headers.entries == AssignAll([], SecurityHeaders(production))
  {
    if !Matched(pathname) {
      return Skipped;
    }
    r := HandleRequest(pathname, token, production);
  }

  /** A guarded path is under the matcher exactly when it does not end in
      an image extension. */
  lemma GuardedPathsMatched(pathname: string)
    requires StartsWith(pathname, DASHBOARD) || StartsWith(pathname, HOME) ||
             StartsWith(pathname, AUTH) || StartsWith(pathname, API_ADMIN)
    ensures Matched(pathname) <==> !ImagePath(pathname[1..])
  {
    var rest := pathname[1..];
    assert rest[0] == pathname[1];
    assert DASHBOARD[1] == 'd' && HOME[1] == 'h' && AUTH[1] == 'a' && API_ADMIN[1] == 'a';
    assert "_next/static"[0] == '_' && "_next/image"[0] == '_';
    assert !StartsWith(rest, "_next/static") && !StartsWith(rest, "_next/image");
    assert !FaviconPrefix(rest) by {
      if |rest| >= 11 {
        assert rest[..7][0] == rest[0] && "favicon"[0] == 'f';
      }
    }
  }

  /** Image paths inside the guarded areas bypass the guards: an anonymous
      request for "/dashboard/logo.svg" is not redirected, although the
      proxy would redirect it, and "/api/admin/report.png" is not refused. */
  lemma ImagesBypassGuards()
    ensures Decide("/dashboard/logo.svg", None) == Redirect(SIGN_IN) && !Matched("/dashboard/logo.svg")
    ensures Decide("/api/admin/report.png", None) == Unauthorized && !Matched("/api/admin/report.png")
  {
    ProtectedAreas("/dashboard/logo.svg", None);
    ProtectedAreas("/api/admin/report.png", None);
    var a := "/dashboard/logo.svg";
    assert StartsWith(a, DASHBOARD) by { assert a[..|DASHBOARD|] == DASHBOARD; }
    assert IMAGE_EXTENSIONS[0] == "svg" && a[1..][|a[1..]| - 4..] == "." + "svg";
    var b := "/api/admin/report.png";
    assert StartsWith(b, API_ADMIN) by { assert b[..|API_ADMIN|] == API_ADMIN; }
    assert !StartsWith(b, DASHBOARD) && !StartsWith(b, HOME) && !StartsWith(b, AUTH) by {
      assert b[1] == 'a' && b[2] == 'p' && AUTH[2] == 'u';
    }
    assert IMAGE_EXTENSIONS[1] == "png" && b[1..][|b[1..]| - 4..] == "." + "png";
  }
}
