/**
 * The route patterns the request middlewares hand to `createRouteMatcher`,
 * and the responses a middleware can choose between.
 */
module RouteMatcher {
  import opened Text

  /**
   * The three pattern shapes in use: an exact path (`/api/clerk/webhook`),
   * a path prefix (`/api/user/(.*)`), and a segment anywhere below the root
   * (`/(.*)/orders(.*)`, where `segment` is `"/orders"`).
   */
  datatype Pattern = Exact(path: string) | Prefix(prefix: string) | Below(segment: string)

  predicate Matches(p: Pattern, path: string) {
    match p
    case Exact(q) => path == q
    case Prefix(q) => StartsWith(path, q)
    case Below(seg) => |path| >= 1 && path[0] == '/' && Contains(path[1..], seg)
  }

  predicate MatchesAny(patterns: seq<Pattern>, path: string) {
    exists i :: 0 <= i < |patterns| && Matches(patterns[i], path)
  }

  /** A path of the form `/x<segment>y` matches the `Below` pattern of that segment. */
  lemma BelowMatches(seg: string, x: string, y: string)
    ensures Matches(Below(seg), "/" + x + seg + y)
  {
    var path := "/" + x + seg + y;
    var rest := path[1..];
    assert rest == x + seg + y;
    assert rest[|x|..|x| + |seg|] == seg;
    ContainsAt(rest, seg, |x|);
  }

  /** What a middleware answers. */
  datatype Action =
    | Next                       // `NextResponse.next()`: handled by the route itself
    | SignIn                     // `redirectToSignIn()`
    | Rewrite(to: string)        // served from another path, URL unchanged
    | Redirect(to: string)       // a temporary redirect
    | Permanent(to: string)      // a 301 redirect
    | Localised                  // handed to the next-intl middleware

  /** `pathname.slice(0, -1)` for a path that ends in `'/'`. */
  function DropTrailingSlash(path: string): (r: string)
    requires |path| > 1 && EndsWith(path, "/")
    ensures |r| == |path| - 1 && r + "/" == path
  {
    path[..|path| - 1]
  }
}
