/**
 * The admin route gate (middleware.ts with the paths of auth.config.ts):
 * which requests pass and which are redirected, by path and by whether the
 * session cookie verifies.
 */
module Middleware {
  import opened Wrappers
  import opened Text

  const SignInPath: string := "/admin/login"
  const AdminPrefix: string := "/admin"

  /** `NextResponse.next()` or a redirect to a path. */
  datatype Decision = Next | Redirect(path: string)

  /**
   * `isAuthenticated`: a missing or empty `speaki_session` cookie is not
   * signed in; otherwise `verifies` decides (it is false when the token is
   * bad, expired, for another audience or issuer, or when no secret is set).
   */
  function IsAuthenticated(cookie: Option<string>, verifies: string -> bool): (ok: bool)
    ensures ok <==> cookie.Some? && cookie.value != "" && verifies(cookie.value)
  {
    match cookie
    case None => false
    case Some(c) => c != "" && verifies(c)
  }

  /** `middleware`: the decision for `pathname` given the cookie check's outcome `ok`. */
  function Gate(pathname: string, ok: bool): (d: Decision)
    ensures !StartsWith(pathname, AdminPrefix) ==> d == Next
    ensures StartsWith(pathname, SignInPath) ==> d == (if ok then Redirect(AdminPrefix) else Next)
    ensures StartsWith(pathname, AdminPrefix) && !StartsWith(pathname, SignInPath) ==>
      d == (if ok then Next else Redirect(SignInPath))
  {
    var onAdmin := StartsWith(pathname, AdminPrefix);
    var onLogin := StartsWith(pathname, SignInPath);
    if !onAdmin then Next
    else if onLogin then (if ok then Redirect(AdminPrefix) else Next)
    else if !ok then Redirect(SignInPath)
    else Next
  }

  /** The sign-in page lies under the admin prefix, so the login test is reached. */
  lemma SignInUnderAdmin()
    ensures StartsWith(SignInPath, AdminPrefix)
    ensures !StartsWith(AdminPrefix, SignInPath)
  {
    assert SignInPath[..|AdminPrefix|] == AdminPrefix;
  }

  /** No loop: following a redirect, with the same cookie, is let through. */
  lemma NoRedirectLoop(pathname: string, ok: bool)
    requires Gate(pathname, ok).Redirect?
    ensures Gate(Gate(pathname, ok).path, ok) == Next
  {
    SignInUnderAdmin();
    assert StartsWith(AdminPrefix, AdminPrefix);
    assert StartsWith(SignInPath, SignInPath);
  }

  /** The sign-in page is never redirected to itself. */
  lemma SignInNeverRedirectsToItself(pathname: string, ok: bool)
    requires StartsWith(pathname, SignInPath)
    ensures Gate(pathname, ok) != Redirect(SignInPath)
  {
    SignInUnderAdmin();
    assert StartsWith(pathname, AdminPrefix) by {
      assert pathname[..|AdminPrefix|] == SignInPath[..|AdminPrefix|];
    }
  }

  /** An admin page other than sign-in is reached exactly when signed in. */
  lemma AdminPagesNeedSignIn(pathname: string, ok: bool)
    requires StartsWith(pathname, AdminPrefix) && !StartsWith(pathname, SignInPath)
    ensures Gate(pathname, ok) == Next <==> ok
  {
  }

  // ---------------------------------------------------------------- route filter

  /**
   * `config.matcher: ['/admin/:path*']`: the middleware runs for `/admin`
   * itself and for every path below it, and for no other path.
   */
  predicate Matched(pathname: string)
  {
    pathname == AdminPrefix || StartsWith(pathname, AdminPrefix + "/")
  }

  /**
   * A request as the framework handles it: only a matched path reaches the
   * gate. Only admin paths are ever redirected, the sign-in page is served or
   * sends a signed-in user to `/admin`, and every other admin page is served
   * exactly when signed in.
   */
  function Route(pathname: string, ok: bool): (d: Decision)
    ensures d.Redirect? ==> Matched(pathname)
    ensures StartsWith(pathname, SignInPath) ==> d == (if ok then Redirect(AdminPrefix) else Next)
    ensures Matched(pathname) && !StartsWith(pathname, SignInPath) ==> (d == Next <==> ok)
  {
    if Matched(pathname) then
      MatchedIsAdmin(pathname);
      Gate(pathname, ok)
    else
      SignInMatched(pathname);
      Next
  }

  /** A matched path starts with the admin prefix, so the gate treats it as an admin page. */
  lemma MatchedIsAdmin(pathname: string)
    requires Matched(pathname)
    ensures StartsWith(pathname, AdminPrefix)
  {
    if pathname != AdminPrefix {
      assert pathname[..|AdminPrefix|] == (AdminPrefix + "/")[..|AdminPrefix|];
    }
  }

  /** Every path under the sign-in page is matched. */
  lemma SignInMatched(pathname: string)
    ensures StartsWith(pathname, SignInPath) ==> Matched(pathname)
  {
    if StartsWith(pathname, SignInPath) {
      assert pathname[..|AdminPrefix| + 1] == SignInPath[..|AdminPrefix| + 1] == AdminPrefix + "/";
    }
  }

  /** `/administrator` shares the prefix but is not matched: the gate would redirect it, the framework never asks. */
  lemma AdministratorNotGated()
    ensures Gate("/administrator", false) == Redirect(SignInPath)
    ensures Route("/administrator", false) == Next
  {
    assert StartsWith("/administrator", AdminPrefix) by {
      assert "/administrator"[..|AdminPrefix|] == AdminPrefix;
    }
    assert !StartsWith("/administrator", SignInPath) by {
      assert "/administrator"[..|SignInPath|] != SignInPath by {
        assert "/administrator"[6] != SignInPath[6];
      }
    }
    assert !Matched("/administrator") by {
      assert "/administrator"[6] != (AdminPrefix + "/")[6];
    }
  }
}
