/**
 * The sitemap generator's configuration: the site URL, the eight locale
 * alternates and the `transform` hook that drops internal paths, keeps
 * localised pages with an alternate link per locale, gives the home page
 * priority 1.0 and passes every other path through without alternates.
 */
module SitemapConfig {
  import opened Wrappers
  import opened Strings

  const DefaultSiteUrl: string := "https://www.batchshots.com"
  const ChangeFreq: string := "weekly"
  const DefaultPriority: real := 0.7

  /** The locales of alternateRefs and of the locale test, in their order. */
  const Locales: seq<string> := ["en", "de", "nl", "fr", "pl", "cs", "ru", "uk"]

  /** The paths that never reach the sitemap. */
  const ExcludePatterns: seq<string> := ["/api/", "/_next/", "/404", "/500"]

  /** `process.env.SITE_URL || 'https://www.batchshots.com'` */
  function SiteUrl(env: Option<string>): (url: string)
    ensures env.Some? && env.value != "" ==> url == env.value
    ensures env.None? || env.value == "" ==> url == DefaultSiteUrl
  {
    if env.Some? && env.value != "" then env.value else DefaultSiteUrl
  }

  datatype AlternateRef = AlternateRef(href: string, hreflang: string)

  datatype Entry = Entry(
    loc: string,
    changefreq: string,
    priority: real,
    lastmod: string,
    alternateRefs: Option<seq<AlternateRef>>)

  /** The first index at or after `from` where `p` occurs in `s`, as indexOf. */
  function FindFrom(s: string, p: string, from: nat): (r: Option<nat>)
    ensures r.Some? ==> from <= r.value && ContainsAt(s, p, r.value)
    ensures r.Some? ==> forall j :: from <= j < r.value ==> !ContainsAt(s, p, j)
    ensures r.None? ==> forall j :: from <= j ==> !ContainsAt(s, p, j)
    decreases |s| - from
  {
    if from + |p| > |s| then None
    else if s[from..from + |p|] == p then Some(from)
    else FindFrom(s, p, from + 1)
  }

  /** String.prototype.replace with a string pattern: only the first occurrence is replaced. */
  function ReplaceFirst(s: string, p: string, replacement: string): (r: string)
    ensures !Contains(s, p) ==> r == s
  {
    match FindFrom(s, p, 0)
    case None => s
    case Some(i) => s[..i] + replacement + s[i + |p|..]
  }

  /** The href function of the alternate for `lang`: `${config.siteUrl}/lang{path}`. */
  function HrefTemplate(siteUrl: string, lang: string): string {
    siteUrl + "/" + lang + "{path}"
  }

  /** `config.alternateRefs?.map(ref => ({ href: ref.href(config).replace('{path}', path), ... }))` */
  function AlternateRefs(siteUrl: string, path: string): (refs: seq<AlternateRef>)
    ensures |refs| == |Locales|
    ensures forall i :: 0 <= i < |refs| ==> refs[i].hreflang == Locales[i]
  {
    seq(|Locales|, i requires 0 <= i < |Locales| =>
      AlternateRef(ReplaceFirst(HrefTemplate(siteUrl, Locales[i]), "{path}", path), Locales[i]))
  }

  predicate Excluded(path: string) {
    exists k :: 0 <= k < |ExcludePatterns| && StartsWith(path, ExcludePatterns[k])
  }

  /** The non-empty segments of a path: `path.split('/').filter(Boolean)`. */
  function PathParts(path: string): seq<string> {
    NonEmpty(Split(path, '/'))
  }

  predicate IsLocalized(path: string) {
    |PathParts(path)| > 0 && PathParts(path)[0] in Locales
  }

  /** '/' + the segments after the locale, joined by '/'. */
  function BasePath(path: string): string
    requires IsLocalized(path)
  {
    "/" + Join(PathParts(path)[1..], '/')
  }

  /** transform(config, path); `now` is the time stamp the hook reads for lastmod. */
  function Transform(siteUrl: string, path: string, now: string): (r: Option<Entry>)
    ensures r.None? <==> Excluded(path)
    ensures r.Some? ==> r.value.changefreq == ChangeFreq && r.value.lastmod == now
    ensures r.Some? && IsLocalized(path) ==>
      r.value.loc == path && r.value.priority == DefaultPriority &&
      r.value.alternateRefs == Some(AlternateRefs(siteUrl, BasePath(path)))
    ensures r.Some? && !IsLocalized(path) && path == "/" ==>
      r.value.loc == "/" && r.value.priority == 1.0 && r.value.alternateRefs == Some(AlternateRefs(siteUrl, ""))
    ensures r.Some? && !IsLocalized(path) && path != "/" ==>
      r.value == Entry(path, ChangeFreq, DefaultPriority, now, None)
  {
    if exists k :: 0 <= k < |ExcludePatterns| && StartsWith(path, ExcludePatterns[k]) then None
    else
      var pathParts := NonEmpty(Split(path, '/'));
      if |pathParts| > 0 && pathParts[0] in Locales then
        var basePath := "/" + Join(pathParts[1..], '/');
        Some(Entry(path, ChangeFreq, DefaultPriority, now, Some(AlternateRefs(siteUrl, basePath))))
      else if path == "/" then
        Some(Entry("/", ChangeFreq, 1.0, now, Some(AlternateRefs(siteUrl, ""))))
      else
        Some(Entry(path, ChangeFreq, DefaultPriority, now, None))
  }

  /** With no '{' in the site URL, the placeholder is found where the template put it. */
  lemma TemplateHref(siteUrl: string, lang: string, path: string)
    requires '{' !in siteUrl && '{' !in lang
    ensures ReplaceFirst(HrefTemplate(siteUrl, lang), "{path}", path) == siteUrl + "/" + lang + path
  {
    var t := HrefTemplate(siteUrl, lang);
    var i := |siteUrl| + 1 + |lang|;
    assert t[i..i + 6] == "{path}";
    forall j | 0 <= j < i ensures t[j] != '{' {
      if j < |siteUrl| {
        assert t[j] == siteUrl[j];
      } else if j > |siteUrl| {
        assert t[j] == lang[j - |siteUrl| - 1];
      }
    }
    FindFirst(t, "{path}", i);
    assert t[..i] == siteUrl + "/" + lang;
  }

  /** The first occurrence of a pattern starting with a character absent before i is at i. */
  lemma FindFirst(s: string, p: string, i: nat)
    requires |p| > 0 && ContainsAt(s, p, i) && forall j :: 0 <= j < i ==> s[j] != p[0]
    ensures FindFrom(s, p, 0) == Some(i)
  {
    forall j | 0 <= j < i ensures !ContainsAt(s, p, j) {
      if j + |p| <= |s| {
        assert s[j..j + |p|][0] == s[j];
      }
    }
    var r := FindFrom(s, p, 0);
    assert r.Some? || !ContainsAt(s, p, i);
  }

  /** Every alternate points at the same page under its own locale. */
  lemma AlternateHrefs(siteUrl: string, path: string, i: int)
    requires '{' !in siteUrl && 0 <= i < |Locales|
    ensures AlternateRefs(siteUrl, path)[i] == AlternateRef(siteUrl + "/" + Locales[i] + path, Locales[i])
  {
    assert '{' !in Locales[i];
    TemplateHref(siteUrl, Locales[i], path);
  }

  /** No locale-prefixed path begins like an excluded one. */
  lemma LocalePathNotExcluded(l: string, rest: string)
    requires l in Locales
    ensures !Excluded("/" + l + rest)
  {
    var path := "/" + l + rest;
    assert path[1] == l[0];
    forall k | 0 <= k < |ExcludePatterns| ensures !StartsWith(path, ExcludePatterns[k]) {
      assert ExcludePatterns[k][1] in "a_45";
    }
  }

  /** Splitting a + "/" + b where a has no slash: a, then the parts of b. */
  lemma SplitAtSlash(a: string, b: string)
    requires '/' !in a
    ensures Split(a + "/" + b, '/') == [a] + Split(b, '/')
  {
    var s := a + "/" + b;
    IndexOfIs(s, '/', |a|);
    assert s[..|a|] == a;
    assert s[|a| + 1..] == b;
  }

  /** A string without a slash splits into itself. */
  lemma SplitNoSlash(a: string)
    requires '/' !in a
    ensures Split(a, '/') == [a]
  {
  }

  lemma NonEmptyDropsEmpty(parts: seq<string>)
    ensures NonEmpty([""] + parts) == NonEmpty(parts)
  {
    assert ([""] + parts)[1..] == parts;
  }

  lemma NonEmptyKeeps(x: string, parts: seq<string>)
    requires x != ""
    ensures NonEmpty([x] + parts) == [x] + NonEmpty(parts)
  {
    assert ([x] + parts)[1..] == parts;
  }

  /** The segments of "/" + l + "/" + rest for a segment l: l, then the segments of rest. */
  lemma SegmentParts(l: string, rest: string)
    requires l != "" && '/' !in l
    ensures PathParts("/" + l + "/" + rest) == [l] + PathParts(rest)
  {
    var s := "/" + l + "/" + rest;
    assert s == "" + "/" + (l + "/" + rest);
    SplitAtSlash("", l + "/" + rest);
    SplitAtSlash(l, rest);
    assert Split(s, '/') == [""] + ([l] + Split(rest, '/'));
    NonEmptyDropsEmpty([l] + Split(rest, '/'));
    NonEmptyKeeps(l, Split(rest, '/'));
  }

  /** A locale segment and the rest of a path: localised, with the rest's segments as base path. */
  lemma LocalePathParts(l: string, rest: string)
    requires l in Locales
    ensures IsLocalized("/" + l + "/" + rest)
    ensures BasePath("/" + l + "/" + rest) == "/" + Join(PathParts(rest), '/')
  {
    assert l != "" && '/' !in l;
    SegmentParts(l, rest);
    assert ([l] + PathParts(rest))[1..] == PathParts(rest);
  }

  /**
   * Every language variant of a page lists the same alternates: those of
   * the page with the locale segment removed.
   */
  lemma LanguageVariantsShareAlternates(siteUrl: string, l1: string, l2: string, rest: string, now: string)
    requires l1 in Locales && l2 in Locales
    ensures var e1 := Transform(siteUrl, "/" + l1 + "/" + rest, now);
            var e2 := Transform(siteUrl, "/" + l2 + "/" + rest, now);
      e1.Some? && e2.Some? && e1.value.alternateRefs == e2.value.alternateRefs &&
      e1.value.alternateRefs == Some(AlternateRefs(siteUrl, "/" + Join(PathParts(rest), '/')))
  {
    LocalizedEntry(siteUrl, l1, rest, now);
    LocalizedEntry(siteUrl, l2, rest, now);
  }

  /** The entry of one localised page. */
  lemma LocalizedEntry(siteUrl: string, l: string, rest: string, now: string)
    requires l in Locales
    ensures var e := Transform(siteUrl, "/" + l + "/" + rest, now);
      e.Some? && e.value.loc == "/" + l + "/" + rest && e.value.priority == DefaultPriority &&
      e.value.alternateRefs == Some(AlternateRefs(siteUrl, "/" + Join(PathParts(rest), '/')))
  {
    LocalePathParts(l, rest);
    assert "/" + l + "/" + rest == "/" + l + ("/" + rest);
    LocalePathNotExcluded(l, "/" + rest);
  }

  /** The home page gets priority 1.0 and alternates at the bare locale roots. */
  lemma HomePage(siteUrl: string, now: string, i: int)
    requires '{' !in siteUrl && 0 <= i < |Locales|
    ensures var e := Transform(siteUrl, "/", now);
      e.Some? && e.value.priority == 1.0 && e.value.alternateRefs.Some? &&
      e.value.alternateRefs.value[i].href == siteUrl + "/" + Locales[i]
  {
    assert !Excluded("/") by {
      forall k | 0 <= k < |ExcludePatterns| ensures !StartsWith("/", ExcludePatterns[k]) {
        assert |ExcludePatterns[k]| > 1;
      }
    }
    assert Split("/", '/') == ["", ""] by {
      IndexOfIs("/", '/', 0);
      assert "/"[1..] == "";
    }
    assert PathParts("/") == [];
    AlternateHrefs(siteUrl, "", i);
    assert siteUrl + "/" + Locales[i] + "" == siteUrl + "/" + Locales[i];
  }

  /**
   * A one-segment localised page such as /de/pricing keeps its loc and
   * links the same segment under every locale.
   */
  lemma LocalizedPage(siteUrl: string, l: string, segment: string, now: string, i: int)
    requires '{' !in siteUrl && 0 <= i < |Locales| && l in Locales
    requires segment != "" && '/' !in segment
    ensures var e := Transform(siteUrl, "/" + l + "/" + segment, now);
      e.Some? && e.value.loc == "/" + l + "/" + segment && e.value.priority == DefaultPriority &&
      e.value.alternateRefs.Some? &&
      e.value.alternateRefs.value[i] == AlternateRef(siteUrl + "/" + Locales[i] + "/" + segment, Locales[i])
  {
    LocalizedEntry(siteUrl, l, segment, now);
    SplitNoSlash(segment);
    NonEmptyKeeps(segment, []);
    assert PathParts(segment) == [segment];
    AlternateHrefs(siteUrl, "/" + segment, i);
    assert siteUrl + "/" + Locales[i] + ("/" + segment) == siteUrl + "/" + Locales[i] + "/" + segment;
  }
}
