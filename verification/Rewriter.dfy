/** The rewriting of page links into `/blue/...` paths, and the reverse-proxy branch that maps such paths
    back to the URL to fetch. */
module Rewriter {
  import opened Options
  import opened Paths
  import UrlParser

  type Url = UrlParser.Url

  // ---- Searching ----------------------------------------------------------------------------

  predicate At(s: string, t: string, i: nat) {
    i + |t| <= |s| && s[i..i + |t|] == t
  }

  predicate StartsWith(s: string, t: string) {
    At(s, t, 0)
  }

  /** `std::string::find` from `i` on. */
  function FindText(s: string, t: string, i: nat): (r: Option<nat>)
    requires i <= |s|
    ensures r.Some? ==> i <= r.value && At(s, t, r.value) && forall k :: i <= k < r.value ==> !At(s, t, k)
    ensures r.None? ==> forall k :: i <= k ==> !At(s, t, k)
    decreases |s| - i
  {
    if At(s, t, i) then Some(i) else if i == |s| then None else FindText(s, t, i + 1)
  }

  predicate Contains(s: string, t: string) {
    FindText(s, t, 0).Some?
  }

  // ---- Rewriting ----------------------------------------------------------------------------

  const HTTP := "http://"
  const HTTPS := "https://"
  const BLUE := "/blue"

  /** Script, data, mail and telephone links, and anchors, are left alone. */
  predicate Special(link: string) {
    StartsWith(link, "javascript:") || StartsWith(link, "data:") || StartsWith(link, "mailto:")
    || StartsWith(link, "tel:") || StartsWith(link, "#")
  }

  /** `getAuthority` */
  function Authority(u: Url): string {
    UrlParser.Around("", u.userinfo, "@") + u.host + UrlParser.PortPart(u.port)
  }

  /** `getPath` */
  function GetPath(u: Url): string {
    if u.path == "" then "/" else u.path
  }

  function Base(u: Url): string {
    u.scheme + "://" + Authority(u)
  }

  /** The URL a link stands for on the page `u`, by the four cases of the code: absolute, scheme-relative,
      root-relative, relative. */
  function Resolved(link: string, u: Url): string {
    if Contains(link, HTTP) || Contains(link, HTTPS) then link
    else if StartsWith(link, "//") then u.scheme + ":" + link
    else if StartsWith(link, "/") then Base(u) + link
    else Base(u) + Normalized(GetPath(u) + "/" + link)
  }

  function Rewritten(link: string, target: Option<Url>, proxyPath: string): string {
    if link == "" || Special(link) || target.None? then link else proxyPath + "/" + Resolved(link, target.value)
  }

  /** `rewrite_url`; `target` is what `CreateUrl` made of the page's own URL. */
  method RewriteUrl(link: string, target: Option<Url>, proxyPath: string) returns (r: string)
    ensures r == Rewritten(link, target, proxyPath)
  {
    hide Normalized, Authority, GetPath;
    if link == "" {
      return link;
    }
    if FindText(link, "javascript:", 0) == Some(0) || FindText(link, "data:", 0) == Some(0)
       || FindText(link, "mailto:", 0) == Some(0) || FindText(link, "tel:", 0) == Some(0)
       || FindText(link, "#", 0) == Some(0) {
      return link;
    }
    if target.None? {
      return link;
    }
    var u := target.value;
    if FindText(link, HTTP, 0) != None || FindText(link, HTTPS, 0) != None {
      return proxyPath + "/" + link;
    }
    LeadingSlashes(link);
    var base := u.scheme + "://" + Authority(u);
    if |link| >= 2 && link[0] == '/' && link[1] == '/' {
      r := u.scheme + ":" + link;
    } else if link[0] == '/' {
      r := base + link;
    } else {
      var path := NormalizePath(GetPath(u) + "/" + link);
      r := base + path;
    }
    r := proxyPath + "/" + r;
  }

  lemma LeadingSlashes(s: string)
    ensures StartsWith(s, "//") <==> |s| >= 2 && s[0] == '/' && s[1] == '/'
    ensures StartsWith(s, "/") <==> |s| >= 1 && s[0] == '/'
  {
    if |s| >= 2 {
      assert s[0..2] == [s[0], s[1]];
    }
    if |s| >= 1 {
      assert s[0..1] == [s[0]];
    }
  }

  // ---- Routing ------------------------------------------------------------------------------

  /** Where the embedded URL starts: at the first `http://`, or else at the first `https://`. */
  function SchemeAt(path: string): Option<nat> {
    var p := FindText(path, HTTP, 0);
    if p.Some? then p else FindText(path, HTTPS, 0)
  }

  /** Trailing slashes removed. */
  function Trimmed(s: string): string {
    if s != "" && s[|s| - 1] == '/' then Trimmed(s[..|s| - 1]) else s
  }

  function WithoutFirstSlash(s: string): string {
    if s != "" && s[0] == '/' then s[1..] else s
  }

  /** The target with `middle` for its path. */
  function Repathed(u: Url, middle: string): string {
    Base(u) + "/" + middle + if u.query == "" then "" else "?" + u.query
  }

  /** The URL that the reverse-proxy branch fetches for a request path; none when it leaves the request to
      the servlets. `parse` stands for `CreateUrl`. */
  function Routed(path: string, parse: string -> Option<Url>): Option<string> {
    if !StartsWith(path, "/blue/") || SchemeAt(path).None? then None
    else
      var p := SchemeAt(path).value;
      var target := path[p..];
      if p < |BLUE| then Some(target) else
      var middle := path[|BLUE|..p];
      if middle == "" || middle == "/" || parse(target).None? then Some(target)
      else Some(Repathed(parse(target).value, WithoutFirstSlash(Trimmed(middle))))
  }

  /** The branch of `handleClient` for paths under `/blue/`. */
  method Route(path: string, parse: string -> Option<Url>) returns (r: Option<string>)
    ensures r == Routed(path, parse)
  {
    hide FindText, Authority;
    if !StartsWith(path, "/blue/") {
      return None;
    }
    var p := FindText(path, HTTP, 0);
    if p.None? {
      p := FindText(path, HTTPS, 0);
    }
    if p.None? {
      return None;
    }
    SchemeAfterBlue(path);
    var target := path[p.value..];
    var middle := path[|BLUE|..p.value];
    if middle != "" && middle != "/" {
      ghost var whole := middle;
      while middle != "" && middle[|middle| - 1] == '/'
        invariant Trimmed(middle) == Trimmed(whole)
        decreases |middle|
      {
        middle := middle[..|middle| - 1];
      }
      if middle != "" && middle[0] == '/' {
        middle := middle[1..];
      }
      var u := parse(target);
      if u.Some? {
        target := u.value.scheme + "://" + Authority(u.value) + "/" + middle;
        if u.value.query != "" {
          target := target + ("?" + u.value.query);
        } else {
          assert target + "" == target;
        }
      }
    }
    r := Some(target);
  }

  // ---- The router undoes the rewriter -------------------------------------------------------

  predicate Leads(t: string) {
    t == HTTP || t == HTTPS
  }

  lemma OccurrenceStarts(s: string, t: string, i: nat)
    requires Leads(t) && At(s, t, i)
    ensures s[i] == 'h'
  {
    assert s[i] == s[i..i + |t|][0] == t[0];
  }

  /** The embedded URL starts after `/blue/`. */
  lemma SchemeAfterBlue(path: string)
    requires StartsWith(path, "/blue/") && SchemeAt(path).Some?
    ensures SchemeAt(path).value >= 6
  {
    OccurrenceStarts(path, if FindText(path, HTTP, 0).Some? then HTTP else HTTPS, SchemeAt(path).value);
    assert forall k :: 0 <= k < 6 ==> path[k] == path[0..6][k];
  }

  lemma AtBehind(path: string, r: string, t: string, k: nat)
    requires path == "/blue/" + r && Leads(t)
    ensures At(path, t, k) <==> k >= 6 && At(r, t, k - 6)
  {
    if At(path, t, k) {
      OccurrenceStarts(path, t, k);
      assert forall j :: 0 <= j < 6 ==> path[j] == "/blue/"[j];
    }
    if k >= 6 && k + |t| <= |path| {
      assert path[k..k + |t|] == r[k - 6..k - 6 + |t|];
    }
  }

  /** Searching behind `/blue/` is searching in the rest. */
  lemma FindBehind(path: string, r: string, t: string)
    requires path == "/blue/" + r && Leads(t)
    ensures FindText(path, t, 0) == var i := FindText(r, t, 0); if i.Some? then Some(i.value + 6) else None
  {
    var i, j := FindText(r, t, 0), FindText(path, t, 0);
    forall k: nat
      ensures At(path, t, k) <==> k >= 6 && At(r, t, k - 6)
    {
      AtBehind(path, r, t, k);
    }
    hide At, FindText;
    if i.Some? {
      assert At(path, t, i.value + 6);
    }
    if j.Some? {
      assert At(r, t, j.value - 6);
    }
  }

  /** `CreateUrl` reads `http` or `https` off the front. */
  ghost predicate ReadsScheme(parse: string -> Option<Url>) {
    forall x :: parse(x).Some? ==>
      && (StartsWith(x, HTTP) ==> parse(x).value.scheme == "http")
      && (StartsWith(x, HTTPS) ==> parse(x).value.scheme == "https")
  }

  /** When the proxy fetches the URL that was embedded in the path. */
  predicate Leading(r: string) {
    StartsWith(r, HTTP) || (StartsWith(r, HTTPS) && !Contains(r, HTTP))
  }

  lemma RepathedLeads(u: Url, middle: string)
    ensures u.scheme == "http" ==> StartsWith(Repathed(u, middle), HTTP)
    ensures u.scheme == "https" ==> StartsWith(Repathed(u, middle), HTTPS)
  {
    hide Authority, At, HTTP, HTTPS;
    SchemesWritten();
    var front := u.scheme + "://";
    var rest := Authority(u) + "/" + middle + if u.query == "" then "" else "?" + u.query;
    assert Repathed(u, middle) == front + rest;
    StartsConcat(front, rest);
  }

  lemma SchemesWritten()
    ensures "http" + "://" == HTTP && "https" + "://" == HTTPS
  {
  }

  lemma StartsConcat(a: string, b: string)
    ensures StartsWith(a + b, a)
  {
  }

  lemma NotBoth(s: string)
    ensures !(StartsWith(s, HTTP) && StartsWith(s, HTTPS))
  {
    if |s| >= 8 {
      assert s[0..7][4] == s[4] == s[0..8][4];
    }
  }

  /** Routing a rewritten path fetches exactly the embedded URL, just when that URL starts with `http://`, or
      starts with `https://` and nowhere contains `http://`. */
  lemma RouteEmbedded(r: string, parse: string -> Option<Url>)
    requires ReadsScheme(parse)
    ensures Routed(BLUE + "/" + r, parse) == Some(r) <==> Leading(r)
  {
    var path := BLUE + "/" + r;
    assert path == "/blue/" + r;
    FindBehind(path, r, HTTP);
    FindBehind(path, r, HTTPS);
    NotBoth(r);
    var i := SchemeAt(path);
    if i.Some? {
      var p := i.value;
      SchemeAfterBlue(path);
      if p == 6 {
        assert path[6..] == r && path[5..6] == "/";
      } else {
        RouteElsewhere(path, r, p, parse);
      }
    }
  }

  /** An embedded URL that is not found at its start is not the one that is fetched. */
  lemma RouteElsewhere(path: string, r: string, p: nat, parse: string -> Option<Url>)
    requires ReadsScheme(parse) && path == "/blue/" + r && SchemeAt(path) == Some(p) && p > 6
    ensures Routed(path, parse) != Some(r) && !Leading(r)
  {
    hide FindText, Repathed, WithoutFirstSlash, Trimmed;
    FindBehind(path, r, HTTP);
    FindBehind(path, r, HTTPS);
    NotBoth(r);
    var target := path[p..];
    var t := if FindText(path, HTTP, 0).Some? then HTTP else HTTPS;
    assert target[0..|t|] == path[p..p + |t|] && StartsWith(target, t);
    assert !StartsWith(r, t);
    var middle := path[5..p];
    assert |middle| >= 2 && |target| < |r|;
    if parse(target).Some? {
      RepathedLeads(parse(target).value, WithoutFirstSlash(Trimmed(middle)));
    }
  }

  /** When requesting a rewritten link of page `u` fetches the URL the link stands for: a link with an
      absolute URL in it must start with that URL, and if it is an `https` one, hold no `http` one; any other
      link works on every `http` and `https` page. */
  predicate FetchedBack(link: string, u: Url) {
    if Contains(link, HTTP) || Contains(link, HTTPS) then
      StartsWith(link, HTTP) || (StartsWith(link, HTTPS) && !Contains(link, HTTP))
    else
      u.scheme == "http" || u.scheme == "https"
  }

  /** The router undoes the rewriter on exactly these links. No scheme that is read off a URL has a colon, and
      no authority a slash. */
  lemma RewriteThenRoute(link: string, u: Url, parse: string -> Option<Url>)
    requires ReadsScheme(parse) && link != "" && !Special(link) && ':' !in u.scheme && '/' !in Authority(u)
    ensures Routed(Rewritten(link, Some(u), BLUE), parse) == Some(Resolved(link, u)) <==> FetchedBack(link, u)
  {
    hide Routed, Special, FindText, BLUE, Authority;
    RouteEmbedded(Resolved(link, u), parse);
    if !Contains(link, HTTP) && !Contains(link, HTTPS) {
      ResolvedLeads(link, u);
    }
  }

  /** What a link without an absolute URL resolves to starts with the page's scheme, and holds no other. */
  lemma ResolvedLeads(link: string, u: Url)
    requires !Contains(link, HTTP) && !Contains(link, HTTPS) && ':' !in u.scheme && '/' !in Authority(u)
    ensures Leading(Resolved(link, u)) <==> u.scheme == "http" || u.scheme == "https"
  {
    hide Normalized, Authority, GetPath, FindText, At, HTTP, HTTPS;
    SchemesWritten();
    LeadingSlashes(link);
    var r := Resolved(link, u);
    if StartsWith(link, "//") {
      AfterSlashes(link);
      assert r == u.scheme + "://" + link[2..];
      SchemeLeads(u.scheme, link[2..]);
      NotInPart("//", link[2..]);
      NotBehindHttps(link[2..]);
    } else {
      var rest := if StartsWith(link, "/") then link else Normalized(GetPath(u) + "/" + link);
      assert r == u.scheme + "://" + (Authority(u) + rest);
      SchemeLeads(u.scheme, Authority(u) + rest);
      if !StartsWith(link, "/") {
        NormalizedSteps(GetPath(u) + "/" + link);
        NoSchemeInSteps(rest);
      }
      NotAcross(Authority(u), rest);
      NotBehindHttps(Authority(u) + rest);
    }
  }

  // ---- Where no `http://` can stand ---------------------------------------------------------

  lemma NotInPart(front: string, rest: string)
    requires !Contains(front + rest, HTTP)
    ensures !Contains(rest, HTTP)
  {
    var s, i := front + rest, FindText(rest, HTTP, 0);
    if i.Some? {
      assert s[|front| + i.value..|front| + i.value + |HTTP|] == rest[i.value..i.value + |HTTP|];
      assert At(s, HTTP, |front| + i.value);
    }
  }

  /** The letters and marks of an occurrence. */
  lemma Spells(s: string, i: nat)
    requires At(s, HTTP, i)
    ensures i + 7 <= |s| && s[i] == 'h' && s[i + 5] == s[i + 6] == '/'
    ensures forall k :: i <= k < i + 5 ==> s[k] != '/'
  {
    var t := s[i..i + 7];
    assert forall k :: 0 <= k < 7 ==> s[i + k] == t[k] == HTTP[k];
    assert forall k :: i <= k < i + 5 ==> s[k] == t[k - i];
  }

  lemma AtBehindHttps(rest: string, k: nat)
    ensures At(HTTPS + rest, HTTP, k) ==> k >= 8 && At(rest, HTTP, k - 8)
  {
    var s := HTTPS + rest;
    assert forall j :: 0 < j < 8 ==> s[j] == HTTPS[j] != 'h';
    assert s[4] == 's';
    if At(s, HTTP, k) {
      Spells(s, k);
      assert s[k + 4] == s[k..k + 7][4] == HTTP[4];
      if k >= 8 {
        assert s[k..k + 7] == rest[k - 8..k - 1];
      }
    }
  }

  lemma NotBehindHttps(rest: string)
    requires !Contains(rest, HTTP)
    ensures !Contains(HTTPS + rest, HTTP)
  {
    hide At;
    forall k: nat
      ensures !At(HTTPS + rest, HTTP, k)
    {
      AtBehindHttps(rest, k);
    }
  }

  /** Between an authority and a path that starts with a single slash there is no room for it. */
  lemma AtAcross(front: string, rest: string, k: nat)
    requires '/' !in front && rest != "" && rest[0] == '/' && (|rest| > 1 ==> rest[1] != '/')
    ensures At(front + rest, HTTP, k) ==> k > |front| && At(rest, HTTP, k - |front|)
  {
    var s, n := front + rest, |front|;
    assert forall j :: 0 <= j < n ==> s[j] == front[j] != '/';
    assert s[n] == '/' && (n + 1 < |s| ==> s[n + 1] != '/');
    if At(s, HTTP, k) {
      Spells(s, k);
      if k > n {
        assert s[k..k + 7] == rest[k - n..k - n + 7];
      }
    }
  }

  lemma NotAcross(front: string, rest: string)
    requires '/' !in front && rest != "" && rest[0] == '/' && !StartsWith(rest, "//") && !Contains(rest, HTTP)
    ensures !Contains(front + rest, HTTP)
  {
    LeadingSlashes(rest);
    hide At;
    forall k: nat
      ensures !At(front + rest, HTTP, k)
    {
      AtAcross(front, rest, k);
    }
  }

  /** A slash at the start, and no two together. */
  predicate Steps(s: string) {
    s != "" && s[0] == '/' && forall k :: 0 < k < |s| ==> !(s[k - 1] == '/' && s[k] == '/')
  }

  lemma NotAtInSteps(s: string, k: nat)
    requires Steps(s)
    ensures !At(s, HTTP, k)
  {
    assert k + 6 < |s| ==> !(s[k + 6 - 1] == '/' && s[k + 6] == '/');
    if At(s, HTTP, k) {
      Spells(s, k);
    }
  }

  lemma NoSchemeInSteps(s: string)
    requires Steps(s)
    ensures !Contains(s, HTTP) && !StartsWith(s, "//")
  {
    LeadingSlashes(s);
    assert |s| > 1 ==> !(s[1 - 1] == '/' && s[1] == '/');
    forall k: nat
      ensures !At(s, HTTP, k)
    {
      NotAtInSteps(s, k);
    }
  }

  /** A normalised path has no two slashes together. */
  lemma NormalizedSteps(path: string)
    ensures Steps(Normalized(path))
  {
    SegmentsPlain(path);
    SlashedSteps(Resolve([], Split(path)));
  }

  lemma {:induction false} SlashedSteps(parts: seq<string>)
    requires AllPlain(parts)
    ensures parts != [] ==> Steps(Slashed(parts))
  {
    if parts != [] {
      var part, rest := parts[0], Slashed(parts[1..]);
      SlashedSteps(parts[1..]);
      var s := "/" + part + rest;
      assert Plain(parts[0]) && Slashless(part) && part != "";
      forall k | 0 < k < |s|
        ensures !(s[k - 1] == '/' && s[k] == '/')
      {
        if k <= |part| {
          assert s[k] == part[k - 1];
        } else if k == |part| + 1 {
          assert s[k - 1] == part[k - 2];
        } else {
          assert s[k - 1] == rest[k - 1 - |part| - 1] && s[k] == rest[k - |part| - 1];
        }
      }
    }
  }

  lemma SchemeLeads(scheme: string, rest: string)
    requires ':' !in scheme
    ensures StartsWith(scheme + "://" + rest, HTTP) <==> scheme == "http"
    ensures StartsWith(scheme + "://" + rest, HTTPS) <==> scheme == "https"
  {
    SchemesWritten();
    ColonEnds(scheme, rest, "http");
    ColonEnds(scheme, rest, "https");
    hide At, HTTP, HTTPS;
  }

  /** The first colon ends the scheme. */
  lemma ColonEnds(scheme: string, rest: string, name: string)
    requires ':' !in scheme && ':' !in name
    ensures StartsWith(scheme + "://" + rest, name + "://") <==> scheme == name
  {
    var s, t := scheme + "://" + rest, name + "://";
    if scheme == name {
      StartsConcat(t, rest);
    }
    if StartsWith(s, t) {
      var front := s[0..|t|];
      assert front == t;
      assert s[|scheme|] == ':' && t[|name|] == ':';
      assert forall k :: 0 <= k < |name| ==> s[k] == front[k] == t[k] == name[k];
      assert s[|name|] == front[|name|] == ':';
      assert forall k :: 0 <= k < |scheme| ==> s[k] == scheme[k];
      assert |scheme| == |name|;
      assert scheme == s[..|scheme|] && name == s[..|name|];
    }
  }

  lemma AfterSlashes(link: string)
    requires StartsWith(link, "//")
    ensures |link| >= 2 && link == "//" + link[2..] && ":" + "//" == "://"
  {
  }
}
