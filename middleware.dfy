/**
 * The request middleware: API, tRPC and model-file requests and anything
 * that looks like a file skip internationalisation; every other pathname
 * is handed to the locale middleware.
 */
module Middleware {
  import opened Strings

  datatype Outcome = Bypass | Intl

  /** The paths the middleware leaves alone: three raw prefixes, or any dot. */
  predicate SkipsIntl(pathname: string) {
    StartsWith(pathname, "/api") || StartsWith(pathname, "/trpc") ||
    StartsWith(pathname, "/models") || '.' in pathname
  }

  /** The middleware's decision for one pathname: `null` (Bypass) or the locale middleware (Intl). */
  function Route(pathname: string): (r: Outcome)
    ensures r == Bypass <==> SkipsIntl(pathname)
    ensures r == Intl <==> !SkipsIntl(pathname)
  {
    if SkipsIntl(pathname) then Bypass else Intl
  }

  /** Everything below /api, /trpc and /models bypasses, whatever follows the prefix. */
  lemma PrefixesBypass(rest: string)
    ensures Route("/api" + rest) == Bypass
    ensures Route("/trpc" + rest) == Bypass
    ensures Route("/models" + rest) == Bypass
  {
    assert ("/api" + rest)[..4] == "/api";
    assert ("/trpc" + rest)[..5] == "/trpc";
    assert ("/models" + rest)[..7] == "/models";
  }

  /** The prefix test is on the raw string: "/apiary" bypasses as well. */
  lemma RawPrefixBypass()
    ensures Route("/apiary") == Bypass
  {
    PrefixesBypass("ary");
  }

  /** Any pathname with a dot, such as a file name, bypasses. */
  lemma DottedPathsBypass(a: string, b: string)
    ensures Route(a + "." + b) == Bypass
  {
    assert (a + "." + b)[|a|] == '.';
  }

  /** A localised page path reaches the locale middleware. */
  lemma PagesGoToIntl()
    ensures Route("/de/pricing") == Intl
    ensures Route("/") == Intl
  {
    var p := "/de/pricing";
    assert p[..4][1] != "/api"[1] && p[..5][1] != "/trpc"[1] && p[..7][1] != "/models"[1];
    assert forall i :: 0 <= i < |p| ==> p[i] != '.';
  }
}
