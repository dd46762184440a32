/** What the links of a page become, in terms of the page's own text. */
module PageLinks {
  import opened Options
  import opened Search
  import opened Paths
  import opened UrlParser
  import opened Rewriter
  import opened RequestPaths

  // ---- Texts --------------------------------------------------------------------------------

  ghost predicate Holds(s: string, t: string) {
    exists front: string, back: string :: s == front + t + back
  }

  /** Links that are left alone. */
  predicate LeftAlone(link: string) {
    link == "" || "javascript:" <= link || "data:" <= link || "mailto:" <= link || "tel:" <= link || "#" <= link
  }

  /** The text up to the first colon, and the colon. */
  function UpToColon(page: string): string {
    var c := Find(page, 0, |page|, ':');
    if c < |page| then page[..c + 1] else page
  }

  /** Where the authority ends that starts at `from`: at the first `/`, `?`, `#` or NUL, or at the end. */
  function AuthorityEnd(page: string, from: nat): (k: nat)
    requires from <= |page|
    ensures from <= k <= |page| && (k < |page| ==> EndsHost(page[k]))
    ensures forall j :: from <= j < k ==> !EndsHost(page[j])
    decreases |page| - from
  {
    if from == |page| || EndsHost(page[from]) then from else AuthorityEnd(page, from + 1)
  }

  /** The text up to the path: what stands before the first of these characters behind the scheme's `://`. */
  function UpToPath(page: string): string {
    var from := |UpToColon(page)| + 2;
    if from <= |page| then page[..AuthorityEnd(page, from)] else page
  }

  lemma ContainsHolds(s: string, t: string)
    ensures Contains(s, t) <==> Holds(s, t)
  {
    var i := FindText(s, t, 0);
    if i.Some? {
      assert s == s[..i.value] + t + s[i.value + |t|..];
    }
    if front: string, back: string :| s == front + t + back {
      assert At(s, t, |front|);
    }
  }

  lemma StartsWithIs(s: string, t: string)
    ensures StartsWith(s, t) <==> t <= s
  {
    if |t| <= |s| {
      assert s[..|t|] == s[0..|t|];
    }
  }

  lemma SpecialLinks(link: string)
    ensures link == "" || Special(link) <==> LeftAlone(link)
  {
    hide StartsWith;
    StartsWithIs(link, "javascript:");
    StartsWithIs(link, "data:");
    StartsWithIs(link, "mailto:");
    StartsWithIs(link, "tel:");
    StartsWithIs(link, "#");
  }

  // ---- The page -----------------------------------------------------------------------------

  /** What follows the authority in print. */
  function Behind(u: Url): string {
    u.path + Around("?", u.query, "") + Around("#", u.fragment, "")
  }

  /** A printed URL is its scheme, `://`, its authority and the rest. */
  lemma PrintedParts(u: Url)
    ensures u.scheme != "" ==> Printed(u) == u.scheme + "://" + Rewriter.Authority(u) + Behind(u)
  {
    hide PortPart;
    var user := Around("", u.userinfo, "@");
    if u.scheme != "" {
      assert Around("", u.scheme, "://") == u.scheme + "://";
      Regroup(u.scheme + "://", user, u.host, PortPart(u.port), u.path, Around("?", u.query, ""),
              Around("#", u.fragment, ""));
    }
  }

  lemma Regroup(a: string, b: string, c: string, d: string, e: string, f: string, g: string)
    ensures a + b + c + d + e + f + g == a + (b + c + d) + (e + f + g)
  {
  }

  /** In a page that is printed back, the scheme ends at the first colon, and the authority where the path starts. */
  lemma PageText(page: string)
    requires Result(page).Parsed? && Result(page).url.scheme != "" && Printed(Result(page).url) == page
    ensures var u := Result(page).url;
            && UpToColon(page) == u.scheme + ":"
            && UpToPath(page) == u.scheme + "://" + Rewriter.Authority(u)
            && page == UpToPath(page) + Behind(u)
  {
    var u := Result(page).url;
    PrintedParts(u);
    SchemeHasNoColon(page);
    AuthorityEnds(page);
    hide Result, Printed, Rewriter.Authority;
    CutsAt(page, u.scheme, Rewriter.Authority(u), Behind(u));
  }

  lemma CutsAt(page: string, scheme: string, authority: string, rest: string)
    requires page == scheme + "://" + authority + rest && ':' !in scheme
    requires Unended(authority) && (rest != "" ==> EndsHost(rest[0]))
    ensures UpToColon(page) == scheme + ":" && UpToPath(page) == scheme + "://" + authority
  {
    var n, k := |scheme|, |scheme| + 3 + |authority|;
    assert forall j :: 0 <= j < n ==> page[j] == scheme[j];
    assert page[n] == ':';
    assert Find(page, 0, |page|, ':') == n;
    assert page[..n + 1] == scheme + ":";
    assert forall j :: n + 3 <= j < k ==> page[j] == authority[j - n - 3];
    assert k < |page| ==> page[k] == rest[0];
    assert AuthorityEnd(page, n + 3) == k;
    assert page[..k] == scheme + "://" + authority;
  }

  // ---- The links ----------------------------------------------------------------------------

  /** What a link of a page becomes, for every page with a scheme that is printed back: links that name what no
      server has, and anchors, stay; behind the proxy's prefix goes a link that holds an absolute URL as it is; one
      that starts with two slashes behind the page's scheme and colon; one with a single slash behind the page's
      text up to its path; and any other behind the same text, joined to the page's path and normalised. */
  lemma WhatLinksBecome(page: string, link: string)
    requires Result(page).Parsed? && Result(page).url.scheme != "" && Printed(Result(page).url) == page
    ensures var r, path := Rewritten(link, Some(Result(page).url), "/blue"), Result(page).url.path;
            && page == UpToPath(page) + path + Around("?", Result(page).url.query, "")
                       + Around("#", Result(page).url.fragment, "")
            && r == if LeftAlone(link) then link
                    else if Holds(link, "http://") || Holds(link, "https://") then "/blue/" + link
                    else if "//" <= link then "/blue/" + UpToColon(page) + link
                    else if "/" <= link then "/blue/" + UpToPath(page) + link
                    else "/blue/" + UpToPath(page) + Normalized((if path == "" then "/" else path) + "/" + link)
  {
    var u := Result(page).url;
    PageText(page);
    SpecialLinks(link);
    ContainsHolds(link, "http://");
    ContainsHolds(link, "https://");
    StartsWithIs(link, "//");
    StartsWithIs(link, "/");
    hide Result, Printed, Normalized, Special, Contains, StartsWith, UpToColon, UpToPath, Rewriter.Authority, LeftAlone,
         Holds, Around;
    Join(UpToPath(page), u.path, Around("?", u.query, ""), Around("#", u.fragment, ""));
    if !LeftAlone(link) {
      LinkBecomes(link, u, UpToColon(page), UpToPath(page));
    }
  }

  lemma LinkBecomes(link: string, u: Url, colon: string, front: string)
    requires link != "" && !Special(link) && colon == u.scheme + ":" && front == u.scheme + "://" + Rewriter.Authority(u)
    ensures Rewritten(link, Some(u), "/blue")
            == if Contains(link, "http://") || Contains(link, "https://") then "/blue/" + link
               else if StartsWith(link, "//") then "/blue/" + colon + link
               else if StartsWith(link, "/") then "/blue/" + front + link
               else "/blue/" + front + Normalized((if u.path == "" then "/" else u.path) + "/" + link)
  {
    hide Normalized, Special, Contains, StartsWith, Rewriter.Authority;
    var path := Normalized((if u.path == "" then "/" else u.path) + "/" + link);
    Concatenate(colon, front, link, path);
  }

  lemma Join(a: string, b: string, c: string, d: string)
    ensures a + (b + c + d) == a + b + c + d
  {
  }

  lemma Concatenate(colon: string, front: string, link: string, path: string)
    ensures "/blue" + "/" + (colon + link) == "/blue/" + colon + link
    ensures "/blue" + "/" + (front + link) == "/blue/" + front + link
    ensures "/blue" + "/" + (front + path) == "/blue/" + front + path
    ensures "/blue" + "/" + link == "/blue/" + link
  {
  }

  // ---- Paths in front of the embedded URL ---------------------------------------------------

  function Slashes(n: nat): string {
    if n == 0 then "" else Slashes(n - 1) + "/"
  }

  /** No slash at either end. */
  predicate Inner(s: string) {
    s != "" ==> s[0] != '/' && s[|s| - 1] != '/'
  }

  lemma {:induction false} TrimmedSlashes(s: string, n: nat)
    requires Inner(s)
    ensures Trimmed("/" + s + Slashes(n)) == if s == "" then "" else "/" + s
  {
    var t := "/" + s + Slashes(n);
    if n > 0 {
      assert t == "/" + s + Slashes(n - 1) + "/";
      assert t[..|t| - 1] == "/" + s + Slashes(n - 1);
      TrimmedSlashes(s, n - 1);
    } else {
      assert t == "/" + s;
      if s != "" {
        assert t[|t| - 1] == s[|s| - 1];
      } else {
        assert t[..|t| - 1] == "";
      }
    }
  }

  /** A request path with more than a slash between the prefix and the embedded URL fetches that text, without
      its slashes at the ends, as a path of the embedded URL's server, with the embedded URL's query. */
  lemma WhatIsFetched(inner: string, n: nat, target: string, parse: string -> Option<Url>)
    requires Inner(inner) && (inner != "" || n > 0)
    requires SchemeAt("/blue/" + inner + Slashes(n) + target) == Some(6 + |inner| + |Slashes(n)|)
    requires Result(target).Parsed? && parse(target) == Some(Result(target).url)
    requires Result(target).url.scheme != "" && Printed(Result(target).url) == target
    ensures Routed("/blue/" + inner + Slashes(n) + target, parse)
            == Some(UpToPath(target) + "/" + inner + Around("?", Result(target).url.query, ""))
  {
    hide *;
    var u, middle := Result(target).url, "/" + inner + Slashes(n);
    PageText(target);
    TrimmedMiddle(inner, n);
    FourParts(inner, Slashes(n), target);
    RoutedBehind(middle, target, u, parse);
    RepathedText(u, inner);
  }

  lemma FourParts(inner: string, slashes: string, target: string)
    ensures "/blue/" + inner + slashes + target == "/blue" + ("/" + inner + slashes) + target
  {
    assert "/blue/" == "/blue" + "/";
  }

  lemma TrimmedMiddle(inner: string, n: nat)
    requires Inner(inner) && (inner != "" || n > 0)
    ensures var middle := "/" + inner + Slashes(n);
            |middle| == 1 + |inner| + |Slashes(n)| > 1 && middle[0] == '/' && WithoutFirstSlash(Trimmed(middle)) == inner
  {
    TrimmedSlashes(inner, n);
    SlashesAreSome(n);
    assert inner != "" ==> ("/" + inner)[1..] == inner;
  }

  lemma RepathedText(u: Url, inner: string)
    ensures Repathed(u, inner) == u.scheme + "://" + Rewriter.Authority(u) + "/" + inner + Around("?", u.query, "")
  {
    hide Rewriter.Authority;
    assert "?" + u.query + "" == "?" + u.query;
  }

  lemma RoutedBehind(middle: string, target: string, u: Url, parse: string -> Option<Url>)
    requires |middle| > 1 && middle[0] == '/' && parse(target) == Some(u)
    requires SchemeAt("/blue" + middle + target) == Some(5 + |middle|)
    ensures Routed("/blue" + middle + target, parse) == Some(Repathed(u, WithoutFirstSlash(Trimmed(middle))))
  {
    hide SchemeAt, Trimmed, Repathed;
    var path, p := "/blue" + middle + target, 5 + |middle|;
    assert path[..6] == "/blue" + middle[..1] && middle[..1] == "/" && path[0..6] == path[..6];
    assert path[p..] == target && path[5..p] == middle;
  }

  lemma SlashesAreSome(n: nat)
    ensures n > 0 ==> |Slashes(n)| > 0
  {
  }
}
