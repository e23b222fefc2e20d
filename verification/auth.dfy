/**
 * The two authentication callbacks (auth.ts): the administrator allowlist
 * checked at sign-in, and the choice of where to send the browser afterwards.
 * The environment variable and the URL parser are parameters: `env` is
 * `ALLOWED_ADMIN_EMAILS` (None when unset) and `origin` is what
 * `new URL(url).origin` gives (None when the constructor throws).
 */
module Auth {
  import opened Wrappers
  import opened Strings

  /** What `signIn` returns: `true`, or the path of the page to send the user to. */
  datatype SignInDecision = Allow | RedirectTo(path: string)

  const ErrorPage := "/auth/error"

  /** `process.env.ALLOWED_ADMIN_EMAILS?.split(',') || []`: a split never yields an empty (falsy) array. */
  function AllowedEmails(env: Option<string>): (emails: seq<string>)
    ensures env.None? ==> emails == []
    ensures env.Some? ==> |emails| >= 1 && Join(emails, ',') == env.value
  {
    if env.Some? then
      JoinSplit(env.value, ',');
      Split(env.value, ',')
    else []
  }

  /** The `signIn` callback, for a user whose email is `email` (None for null or undefined). */
  function SignIn(email: Option<string>, env: Option<string>): (r: SignInDecision)
    ensures r.RedirectTo? ==> r.path == ErrorPage
    ensures r.Allow? ==> env.Some? && email.Some? && email.value != ""
  {
    if email.Some? && email.value != "" && email.value in AllowedEmails(env) then Allow
    else RedirectTo(ErrorPage)
  }

  /**
   * With the variable set to comma-joined addresses, sign-in is allowed exactly
   * for a non-empty email equal to one of them: no trimming, no case folding.
   */
  lemma SignInAllowlist(email: string, admins: seq<string>)
    requires |admins| >= 1
    requires forall k :: 0 <= k < |admins| ==> ',' !in admins[k]
    ensures SignIn(Some(email), Some(Join(admins, ','))).Allow? <==> email != "" && email in admins
  {
    SplitJoin(admins, ',');
  }

  /** An address written with a space after the comma is not matched by the bare address. */
  lemma {:induction false} SpaceAfterCommaDenied(email: string, others: seq<string>)
    requires email != "" && ',' !in email
    requires forall k :: 0 <= k < |others| ==> ',' !in others[k] && others[k] != email
    ensures SignIn(Some(email), Some(Join(others + [" " + email], ','))).RedirectTo?
  {
    var admins := others + [" " + email];
    assert admins[|others|] == " " + email;
    assert forall k :: 0 <= k < |admins| ==> ',' !in admins[k];
    SignInAllowlist(email, admins);
    assert |admins[|others|]| == |email| + 1;
    assert forall k :: 0 <= k < |admins| ==> admins[k] != email;
  }

  /** With the variable unset nobody can sign in. */
  lemma SignInUnset(email: Option<string>)
    ensures SignIn(email, None) == RedirectTo(ErrorPage)
  {
  }

  /**
   * The `redirect` callback: a relative URL is taken against the base, an
   * absolute URL on the base's own origin is kept, and any other URL is
   * replaced by the admin panel. None when the URL parser throws.
   */
  function Redirect(url: string, baseUrl: string, origin: string -> Option<string>): (r: Option<string>)
    // a relative URL is resolved against the base
    ensures StartsWith(url, "/") ==> r == Some(baseUrl + url)
    // a full URL on the base's own origin is kept as it is
    ensures !StartsWith(url, "/") && origin(url) == Some(baseUrl) ==> r == Some(url)
    // any other full URL is replaced by the admin panel
    ensures !StartsWith(url, "/") && origin(url).Some? && origin(url) != Some(baseUrl) ==> r == Some(baseUrl + "/admin")
    ensures r.None? <==> !StartsWith(url, "/") && origin(url).None?
    // the browser is never sent to a foreign origin
    ensures r.Some? ==> StartsWith(r.value, baseUrl) || origin(r.value) == Some(baseUrl)
    ensures r.Some? && r.value != url ==> StartsWith(r.value, baseUrl)
  {
    if StartsWith(url, "/") then Some(baseUrl + url)
    else
      match origin(url)
      case None => None
      case Some(o) =>
        if o == baseUrl then Some(url) else Some(baseUrl + "/admin")
  }

  /**
   * Redirecting twice is redirecting once, when the base is an absolute URL
   * that is the origin of every path appended to it.
   */
  lemma RedirectIdempotent(url: string, baseUrl: string, origin: string -> Option<string>)
    requires !StartsWith(baseUrl, "/")
    requires forall path :: StartsWith(path, "/") ==> origin(baseUrl + path) == Some(baseUrl)
    requires Redirect(url, baseUrl, origin).Some?
    ensures Redirect(Redirect(url, baseUrl, origin).value, baseUrl, origin) == Redirect(url, baseUrl, origin)
  {
    var r := Redirect(url, baseUrl, origin).value;
    if r != url || StartsWith(url, "/") {
      var path := if StartsWith(url, "/") then url else "/admin";
      assert r == baseUrl + path && StartsWith(path, "/");
      assert origin(baseUrl + path) == Some(baseUrl);
      if baseUrl != [] {
        assert r[..1] == baseUrl[..1];
      }
    }
  }
}
