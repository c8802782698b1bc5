/**
 * The request proxy (`src/proxy.ts`): which requests are localised, which
 * bypass authentication, which need a signed-in user, and the trailing-slash
 * redirect. `principal` is the Clerk user id of the request, if any.
 */
module Proxy {
  import opened Wrappers
  import opened Text
  import opened RouteMatcher

  datatype I18n = I18n(locales: seq<string>, defaultLocale: string, localePrefixAsNeeded: bool)

  const ProtectedRoutes: seq<Pattern> := [
    Below("/activity"), Below("/orders"), Prefix("/api/user/"),
    Exact("/api/payments/checkout"), Exact("/api/payments/activity")]

  const PublicApiRoutes: seq<Pattern> := [
    Exact("/api/payments/webhook"), Exact("/api/clerk/webhook"), Exact("/api/anonymous-usage"),
    Exact("/api/user/credits"), Exact("/api/user/last-order")]

  const ApiPrefix := "/api/"

  /** The path is `/loc` or lies below `/loc/` for a configured locale. */
  predicate HasLocalePrefix(locales: seq<string>, path: string) {
    exists i :: 0 <= i < |locales| && (path == "/" + locales[i] || StartsWith(path, "/" + locales[i] + "/"))
  }

  /** The middleware's decision for one request. */
  function Decide(cfg: I18n, path: string, principal: Option<string>): (r: Action)
    ensures !HasLocalePrefix(cfg.locales, path) && !StartsWith(path, ApiPrefix) ==>
      r == (if cfg.localePrefixAsNeeded then Rewrite("/" + cfg.defaultLocale + path)
            else Redirect("/" + cfg.defaultLocale + path))
    ensures StartsWith(path, ApiPrefix) ==> r in {Next, SignIn}
    ensures r == SignIn <==>
      (HasLocalePrefix(cfg.locales, path) || StartsWith(path, ApiPrefix)) &&
      !MatchesAny(PublicApiRoutes, path) && MatchesAny(ProtectedRoutes, path) && !Truthy(principal)
    ensures MatchesAny(PublicApiRoutes, path) && StartsWith(path, ApiPrefix) ==> r == Next
    ensures r.Permanent? ==>
      |path| > 1 && EndsWith(path, "/") && r.to == DropTrailingSlash(path) && HasLocalePrefix(cfg.locales, path)
    ensures r == Localised ==> HasLocalePrefix(cfg.locales, path) && !StartsWith(path, ApiPrefix)
  {
    if !HasLocalePrefix(cfg.locales, path) && !StartsWith(path, ApiPrefix) then
      var to := "/" + cfg.defaultLocale + path;
      if cfg.localePrefixAsNeeded then Rewrite(to) else Redirect(to)
    else if MatchesAny(PublicApiRoutes, path) then Next
    else if MatchesAny(ProtectedRoutes, path) && !Truthy(principal) then SignIn
    else if StartsWith(path, ApiPrefix) then Next
    else if |path| > 1 && EndsWith(path, "/") then Permanent(DropTrailingSlash(path))
    else Localised
  }

  /** A locale must be followed by the end of the path or by `/`: `/english` is not under `/en`. */
  lemma LocalePrefixNeedsBoundary()
    ensures HasLocalePrefix(["en"], "/en")
    ensures HasLocalePrefix(["en"], "/en/pricing")
    ensures !HasLocalePrefix(["en"], "/english")
  {
    var locales := ["en"];
    assert "/en" == "/" + locales[0];
    assert "/en/pricing"[..4] == "/" + locales[0] + "/";
    var p := "/english";
    assert p[3] != '/';
    assert !StartsWith(p, "/" + locales[0] + "/");
  }

  /**
   * `/api/user/credits` is on both lists; the public list is consulted first,
   * so it is served without a signed-in user.
   */
  lemma CreditsBypassAuth(cfg: I18n)
    ensures MatchesAny(ProtectedRoutes, "/api/user/credits")
    ensures Decide(cfg, "/api/user/credits", None) == Next
  {
    var path := "/api/user/credits";
    assert StartsWith(path, ApiPrefix) by { assert path[..5] == ApiPrefix; }
    assert Matches(ProtectedRoutes[2], path) by { assert path[..10] == "/api/user/"; }
    assert Matches(PublicApiRoutes[3], path);
  }

  /** Every public route is an API path. */
  lemma PublicRoutesAreApi(path: string)
    requires MatchesAny(PublicApiRoutes, path)
    ensures StartsWith(path, ApiPrefix)
  {
    var k :| 0 <= k < |PublicApiRoutes| && Matches(PublicApiRoutes[k], path);
    assert path[..5] == ApiPrefix;
  }

  /** A signed-out visitor to a localised orders page is sent to sign in. */
  lemma OrdersPageNeedsSignIn(cfg: I18n, loc: string, rest: string)
    requires loc in cfg.locales
    requires !StartsWith("/" + loc + "/orders", ApiPrefix)
    ensures Decide(cfg, "/" + loc + "/orders" + rest, None) == SignIn
  {
    var page := "/" + loc + "/orders";
    var path := page + rest;
    var i :| 0 <= i < |cfg.locales| && cfg.locales[i] == loc;
    assert path[..|"/" + loc + "/"|] == "/" + loc + "/";
    BelowMatches("/orders", loc, rest);
    assert Matches(ProtectedRoutes[1], path);
    if MatchesAny(PublicApiRoutes, path) {
      PublicRoutesAreApi(path);
      assert false;
    }
  }

  /** A localised page path ending in `/` is redirected permanently to the path without it. */
  lemma TrailingSlashRedirect(cfg: I18n, loc: string, rest: string)
    requires loc in cfg.locales
    requires !StartsWith("/" + loc + "/" + rest + "/", ApiPrefix)
    requires !MatchesAny(ProtectedRoutes, "/" + loc + "/" + rest)
    ensures Decide(cfg, "/" + loc + "/" + rest + "/", None) == Permanent("/" + loc + "/" + rest)
  {
    var p := "/" + loc + "/" + rest;
    var path := p + "/";
    var i :| 0 <= i < |cfg.locales| && cfg.locales[i] == loc;
    assert path[..|"/" + loc + "/"|] == "/" + loc + "/";
    assert HasLocalePrefix(cfg.locales, path);
    if MatchesAny(PublicApiRoutes, path) {
      PublicRoutesAreApi(path);
      assert false;
    }
    ProtectedIgnoresTrailingSlash(p);
    assert path[..|path| - 1] == p;
  }

  /** Adding a final `/` to a page path does not make an unprotected path protected. */
  lemma ProtectedIgnoresTrailingSlash(p: string)
    requires !MatchesAny(ProtectedRoutes, p) && !StartsWith(p + "/", ApiPrefix)
    ensures !MatchesAny(ProtectedRoutes, p + "/")
  {
    var q := p + "/";
    forall k | 0 <= k < |ProtectedRoutes| ensures !Matches(ProtectedRoutes[k], q) {
      if Matches(ProtectedRoutes[k], q) {
        if k < 2 {
          ContainsAppendSlash(q[1..], p[1..], ProtectedRoutes[k].segment);
        } else {
          ProtectedApiRoutesUnderApi(k, q);
        }
      }
    }
  }

  /** Every protected pattern but the two page segments lies under `/api/`. */
  lemma ProtectedApiRoutesUnderApi(k: int, path: string)
    requires 2 <= k < |ProtectedRoutes| && Matches(ProtectedRoutes[k], path)
    ensures StartsWith(path, ApiPrefix)
  {
    var pat := ProtectedRoutes[k];
    var lit := if pat.Prefix? then pat.prefix else pat.path;
    assert |lit| >= 5 && lit[..5] == ApiPrefix;
    assert path[..|lit|] == lit;
    assert path[..5] == lit[..5];
  }

  /** For a segment that does not end in `/`, a match in `s + "/"` is a match in `s`. */
  lemma {:induction false} ContainsAppendSlash(t: string, s: string, seg: string)
    requires t == s + "/" && seg != [] && seg[|seg| - 1] != '/' && Contains(t, seg)
    ensures Contains(s, seg)
    decreases |s|
  {
    if StartsWith(t, seg) {
      assert s[..|seg|] == t[..|seg|];
      ContainsAt(s, seg, 0);
    } else {
      assert t[1..] == s[1..] + "/";
      ContainsAppendSlash(t[1..], s[1..], seg);
      assert Contains(s[1..], seg);
    }
  }
}
