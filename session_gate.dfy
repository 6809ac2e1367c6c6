/**
 * The session gate that runs before every matched page request
 * (src/middleware.ts). The verification round-trip to `/api/auth/verify`
 * is an oracle: given the `Cookie` header it forwards, it answers whether
 * the response was `ok`.
 */
module SessionGate {
  import opened Wrappers
  import JsText

  const SessionCookieName: string := "__session"
  const AuthPrefix: string := "/auth"
  const LoginPath: string := "/auth/login"
  const DashboardPath: string := "/dashboard"
  const VerifyPath: string := "/api/auth/verify"

  /** A page request: its pathname and the value of its `__session` cookie, if any. */
  datatype Request = Request(pathname: string, sessionCookie: Option<string>)

  /** `NextResponse.next()` or `NextResponse.redirect(new URL(target, request.url))`. */
  datatype Response = Next | Redirect(target: string)

  /** The verification call: `response.ok` for a request carrying the given `Cookie` header. */
  type Verifier = string -> bool

  function CookieHeader(value: string): string
  {
    SessionCookieName + "=" + value
  }

  /** `isAuthenticated`: an absent or empty cookie short-circuits to false; otherwise the verifier decides. */
  function IsAuthenticated(cookie: Option<string>, verify: Verifier): (r: bool)
    ensures r <==> cookie.Some? && cookie.value != "" && verify("__session=" + cookie.value)
  {
    assert cookie.Some? ==> CookieHeader(cookie.value) == "__session=" + cookie.value;
    match cookie
    case None => false
    case Some(v) => if v == "" then false else verify(CookieHeader(v))
  }

  /** `middleware` once authentication is known. */
  function Decide(pathname: string, authenticated: bool): (r: Response)
    ensures r == Next <==> (AuthPrefix <= pathname) != authenticated
    ensures r.Redirect? ==> r.target == (if authenticated then DashboardPath else LoginPath)
  {
    if AuthPrefix <= pathname then
      if authenticated then Redirect(DashboardPath) else Next
    else if !authenticated then Redirect(LoginPath)
    else Next
  }

  // ---------------------------------------------------------------------
  // The route matcher `/((?!api|_next/static|_next/image|favicon.ico).*)`,
  // matched against the whole pathname.

  /** An atom of the negative lookahead: a literal character, or the wildcard `.`. */
  datatype Atom = Lit(c: char) | AnyChar

  /** The atoms of a run of literal characters. */
  function Literal(w: string): seq<Atom>
  {
    seq(|w|, i requires 0 <= i < |w| => Lit(w[i]))
  }

  /** The alternatives of the lookahead, in source order. */
  function Excluded(): seq<seq<Atom>>
  {
    [Literal("api"), Literal("_next/static"), Literal("_next/image"), FaviconIco()]
  }

  /** `.` matches one UTF-16 code unit other than a line terminator; pathnames are percent-encoded ASCII, so a character is one code unit. */
  predicate AtomMatches(a: Atom, c: char)
  {
    match a
    case Lit(d) => c == d
    case AnyChar => !JsText.IsLineTerminator(c)
  }

  /** The pattern matches a prefix of `s`. */
  predicate MatchesPrefix(p: seq<Atom>, s: string)
  {
    |p| <= |s| && forall i :: 0 <= i < |p| ==> AtomMatches(p[i], s[i])
  }

  /** The negative lookahead's alternation: some alternative matches a prefix of `s`. */
  predicate MatchesSomePrefix(alternatives: seq<seq<Atom>>, s: string)
  {
    exists k :: 0 <= k < |alternatives| && MatchesPrefix(alternatives[k], s)
  }

  /** The whole pattern matches the pathname: the middleware runs for it. */
  predicate Gated(path: string)
    ensures Gated(path) ==> !("/api" <= path) && !("/_next/static" <= path) && !("/_next/image" <= path)
  {
    if |path| >= 1 && path[0] == '/' then
      ExcludedIff(path[1..]);
      SlashPrefix("api", path);
      SlashPrefix("_next/static", path);
      SlashPrefix("_next/image", path);
      !MatchesSomePrefix(Excluded(), path[1..])
      && forall i :: 1 <= i < |path| ==> !JsText.IsLineTerminator(path[i])
    else
      false
  }

  /** Past a leading `/`, `"/" + w` is a prefix of the path iff `w` is a prefix of the rest. */
  lemma SlashPrefix(w: string, path: string)
    requires |path| >= 1 && path[0] == '/'
    ensures ("/" + w <= path) <==> (w <= path[1..])
  {
    if w <= path[1..] {
      assert path[..|w| + 1] == "/" + w;
    }
    if "/" + w <= path {
      assert path[1..][..|w|] == ("/" + w)[1..];
    }
  }

  /** The whole pipeline: ungated paths pass untouched, gated ones are decided on a fresh verification. */
  function Gate(request: Request, verify: Verifier): (r: Response)
    ensures !Gated(request.pathname) ==> r == Next
    ensures r.Redirect? ==> Gated(request.pathname) && (r.target == LoginPath || r.target == DashboardPath)
  {
    if !Gated(request.pathname) then Next
    else Decide(request.pathname, IsAuthenticated(request.sessionCookie, verify))
  }

  // ---------------------------------------------------------------------
  // Authentication

  /** With no cookie, or an empty one, the request is unauthenticated and the verifier is never consulted. */
  lemma NoCookieIsUnauthenticated(cookie: Option<string>, v1: Verifier, v2: Verifier)
    requires cookie.None? || cookie.value == ""
    ensures !IsAuthenticated(cookie, v1)
    ensures IsAuthenticated(cookie, v1) == IsAuthenticated(cookie, v2)
  {
  }

  /** With a cookie, authentication is the verifier's answer for that cookie's header, and nothing else. */
  lemma CookieAuthenticationIsVerifierAnswer(v: string, v1: Verifier, v2: Verifier)
    requires v != ""
    ensures IsAuthenticated(Some(v), v1) == v1("__session=" + v)
    ensures v1("__session=" + v) == v2("__session=" + v) ==> IsAuthenticated(Some(v), v1) == IsAuthenticated(Some(v), v2)
  {
    assert CookieHeader(v) == "__session=" + v;
  }

  // ---------------------------------------------------------------------
  // The decision table

  /** On a path starting with `/auth`: authenticated goes to `/dashboard`, unauthenticated passes. */
  lemma AuthRouteDecision(pathname: string, authenticated: bool)
    requires |pathname| >= 5 && pathname[..5] == "/auth"
    ensures Decide(pathname, authenticated) == if authenticated then Redirect("/dashboard") else Next
  {
  }

  /** On any other path: unauthenticated goes to `/auth/login`, authenticated passes. */
  lemma ProtectedRouteDecision(pathname: string, authenticated: bool)
    requires !(|pathname| >= 5 && pathname[..5] == "/auth")
    ensures Decide(pathname, authenticated) == if authenticated then Next else Redirect("/auth/login")
  {
  }

  /** No redirect loop: the gate passes a request to the target it redirected to, with the same authentication. */
  lemma NoRedirectLoop(pathname: string, authenticated: bool)
    ensures Decide(pathname, authenticated).Redirect? ==>
      var t := Decide(pathname, authenticated).target;
      Gated(t) && Decide(t, authenticated) == Next
  {
    RedirectTargetsGated();
    assert LoginPath[..5] == AuthPrefix;
    assert DashboardPath[1] != AuthPrefix[1];
  }

  /** The same, end to end: the follow-up request carries the same cookie and meets the same verifier. */
  lemma NoRedirectLoopThroughGate(request: Request, verify: Verifier)
    ensures Gate(request, verify).Redirect? ==>
      Gate(Request(Gate(request, verify).target, request.sessionCookie), verify) == Next
  {
    NoRedirectLoop(request.pathname, IsAuthenticated(request.sessionCookie, verify));
  }

  /** Ungated paths pass through without consulting the verifier. */
  lemma UngatedPassesWithoutVerifying(request: Request, v1: Verifier, v2: Verifier)
    requires !Gated(request.pathname)
    ensures Gate(request, v1) == Next && Gate(request, v2) == Next
  {
  }

  // ---------------------------------------------------------------------
  // The matcher

  lemma LiteralMatchesIffPrefix(w: string, s: string)
    ensures MatchesPrefix(Literal(w), s) <==> w <= s
  {
  }

  /** `favicon.ico` with `.` the wildcard: `favicon`, any code point but a line terminator, `ico`. */
  predicate StartsWithFaviconIco(s: string)
  {
    |s| >= 11 && s[..7] == "favicon" && !JsText.IsLineTerminator(s[7]) && s[8..11] == "ico"
  }

  function FaviconIco(): seq<Atom>
  {
    Literal("favicon") + [AnyChar] + Literal("ico")
  }

  lemma FaviconIcoMatchesIff(s: string)
    ensures MatchesPrefix(FaviconIco(), s) <==> StartsWithFaviconIco(s)
  {
  }

  /** The lookahead rejects exactly the texts starting with one of the four alternatives. */
  lemma ExcludedIff(s: string)
    ensures MatchesSomePrefix(Excluded(), s) <==>
      "api" <= s || "_next/static" <= s || "_next/image" <= s || StartsWithFaviconIco(s)
  {
    var alts := Excluded();
    LiteralMatchesIffPrefix("api", s);
    LiteralMatchesIffPrefix("_next/static", s);
    LiteralMatchesIffPrefix("_next/image", s);
    FaviconIcoMatchesIff(s);
    if MatchesSomePrefix(alts, s) {
      var k :| 0 <= k < |alts| && MatchesPrefix(alts[k], s);
      assert k == 0 || k == 1 || k == 2 || k == 3;
    }
    if "api" <= s {
      assert MatchesPrefix(alts[0], s);
    } else if "_next/static" <= s {
      assert MatchesPrefix(alts[1], s);
    } else if "_next/image" <= s {
      assert MatchesPrefix(alts[2], s);
    } else if StartsWithFaviconIco(s) {
      assert MatchesPrefix(alts[3], s);
    }
  }

  /**
   * A path is gated iff it starts with `/`, holds no line terminator after it,
   * and the text after the `/` starts with none of `api`, `_next/static`,
   * `_next/image` or `favicon`, a wildcard code point, `ico`.
   */
  lemma GatedIff(path: string)
    ensures Gated(path) <==>
      |path| >= 1 && path[0] == '/'
      && (forall i :: 1 <= i < |path| ==> !JsText.IsLineTerminator(path[i]))
      && !("api" <= path[1..]) && !("_next/static" <= path[1..]) && !("_next/image" <= path[1..])
      && !StartsWithFaviconIco(path[1..])
  {
    if |path| >= 1 {
      ExcludedIff(path[1..]);
    }
  }

  /** A concrete path whose characters are all printable ASCII holds no line terminator. */
  lemma PrintableHasNoLineTerminator(path: string)
    requires forall i :: 0 <= i < |path| ==> ' ' <= path[i] <= '~'
    ensures forall i :: 1 <= i < |path| ==> !JsText.IsLineTerminator(path[i])
  {
  }

  /** The login and dashboard pages are gated; the verification endpoint is not, so the gate's own call is never gated. */
  lemma RedirectTargetsGated()
    ensures Gated(LoginPath) && Gated(DashboardPath) && !Gated(VerifyPath)
  {
    GatedIff(LoginPath);
    assert LoginPath[1..] == "auth/login";
    assert "auth/login"[1] == 'u';
    PrintableHasNoLineTerminator(LoginPath);
    GatedIff(DashboardPath);
    assert DashboardPath[1..] == "dashboard";
    PrintableHasNoLineTerminator(DashboardPath);
    GatedIff(VerifyPath);
    assert VerifyPath[1..][..3] == "api";
  }

  /** The prefix test has no word boundary: `/apiary` is ungated like `/api/...`. */
  lemma ApiaryUngated()
    ensures !Gated("/apiary")
  {
    GatedIff("/apiary");
    assert "/apiary"[1..][..3] == "api";
  }

  /** `.` is a wildcard: `/favicon-ico` is ungated like `/favicon.ico`. */
  lemma FaviconWildcardUngated()
    ensures !Gated("/favicon-ico") && !Gated("/favicon.ico")
  {
    GatedIff("/favicon-ico");
    var dash := "/favicon-ico"[1..];
    assert dash == "favicon-ico";
    assert dash[..7] == "favicon" && dash[8..11] == "ico";
    assert StartsWithFaviconIco(dash);
    GatedIff("/favicon.ico");
    var dot := "/favicon.ico"[1..];
    assert dot == "favicon.ico";
    assert dot[..7] == "favicon" && dot[8..11] == "ico";
    assert StartsWithFaviconIco(dot);
  }

  /** The root page is gated: the empty rest starts with no alternative. */
  lemma RootGated()
    ensures Gated("/")
  {
    GatedIff("/");
  }
}
