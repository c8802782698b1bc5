/**
 * The older request middleware (`src/middleware.ts`): public routes first,
 * then the protected check, then the API skip, the root redirect and the
 * trailing-slash redirect. It has no locale-prefix stage of its own.
 */
module Middleware {
  import opened Wrappers
  import opened Text
  import opened RouteMatcher
  import Proxy

  const ProtectedRoutes: seq<Pattern> := [
    Below("/history"), Below("/orders"), Prefix("/api/user/"),
    Exact("/api/payments/checkout"), Exact("/api/payments/history"), Exact("/api/ai-generate")]

  const PublicApiRoutes: seq<Pattern> := [
    Exact("/api/payments/webhook"), Exact("/api/clerk/webhook"), Exact("/api/anonymous-usage")]

  const ApiPrefix := "/api/"

  /** The middleware's decision for one request. */
  function Decide(defaultLocale: string, path: string, principal: Option<string>): (r: Action)
    ensures MatchesAny(PublicApiRoutes, path) ==> r == Next
    ensures r == SignIn <==> !MatchesAny(PublicApiRoutes, path) && MatchesAny(ProtectedRoutes, path) && !Truthy(principal)
    ensures StartsWith(path, ApiPrefix) ==> r in {Next, SignIn}
    ensures path == "/" ==> r == Permanent("/" + defaultLocale)
    ensures r.Permanent? && path != "/" ==>
      |path| > 1 && EndsWith(path, "/") && r.to == DropTrailingSlash(path)
    ensures !r.Permanent? && r != SignIn && r != Localised ==> r == Next
    ensures r == Localised ==> !StartsWith(path, ApiPrefix) && path != "/" && !(|path| > 1 && EndsWith(path, "/"))
  {
    if MatchesAny(PublicApiRoutes, path) then Next
    else if MatchesAny(ProtectedRoutes, path) && !Truthy(principal) then SignIn
    else if StartsWith(path, ApiPrefix) then Next
    else if path == "/" then Permanent("/" + defaultLocale)
    else if |path| > 1 && EndsWith(path, "/") then Permanent(DropTrailingSlash(path))
    else Localised
  }

  /** A signed-out call of the AI route is sent to sign in here, while the newer proxy lets it through. */
  lemma AiGenerateProtectedOnlyHere(defaultLocale: string, cfg: Proxy.I18n)
    ensures Decide(defaultLocale, "/api/ai-generate", None) == SignIn
    ensures Proxy.Decide(cfg, "/api/ai-generate", None) == Next
  {
    var path := "/api/ai-generate";
    assert Matches(ProtectedRoutes[5], path);
    assert StartsWith(path, ApiPrefix) by { assert path[..5] == ApiPrefix; }
    assert !MatchesAny(Proxy.ProtectedRoutes, path) by {
      assert path[..10] == "/api/ai-ge";
      forall k | 0 <= k < |Proxy.ProtectedRoutes| ensures !Matches(Proxy.ProtectedRoutes[k], path) {
        if k < 2 && Matches(Proxy.ProtectedRoutes[k], path) {
          SegmentAbsent(path, Proxy.ProtectedRoutes[k].segment);
        }
      }
    }
  }

  /** `/api/ai-generate` holds none of the segments the page patterns look for. */
  lemma SegmentAbsent(path: string, seg: string)
    requires path == "/api/ai-generate" && seg in {"/activity", "/orders"}
    ensures !Contains(path[1..], seg)
  {
    var t := path[1..];
    assert t == "api/ai-generate";
    forall i: nat ensures !OccursAt(t, seg, i) {
      if i + |seg| > |t| {
      } else if i == 3 {
        assert t[i..i + |seg|][2] == 'i' != seg[2];
      } else {
        assert t[i..i + |seg|][0] == t[i] != '/';
      }
    }
    NotContains(t, seg);
  }
}
