/** From a rewritten link to the path of the request it causes: what the URL parser reads off both. */
module RequestPaths {
  import opened Options
  import opened Search
  import opened UrlParser
  import Percent
  import P = UrlPrinting
  import T = UrlRoundTrip
  import opened Rewriter

  // ---- The scheme of an absolute URL --------------------------------------------------------

  lemma {:induction false} SchemeMarkStays(s: string, p: nat, st: St, m: Marks)
    requires p <= |s| && !st.Begin?
    ensures Run(s, p, st, m).1.scheme == m.scheme
    ensures !Run(s, p, st, m).0.Begin?
    ensures st != Scheme && st != Colon && st != Slash ==>
              Run(s, p, st, m).0 != Scheme && Run(s, p, st, m).0 != Colon && Run(s, p, st, m).0 != Slash
    decreases |s| - p
  {
    if p < |s| {
      var (next, marks) := Next(st, m, s[p], p);
      SchemeMarkStays(s, p + 1, next, marks);
    }
  }

  /** Every URL that the automaton accepts carries the scheme it starts with. */
  lemma SchemeRead(s: string, scheme: string)
    requires T.SchemeOk(scheme) && StartsWith(s, scheme + "://")
    ensures Result(s).Parsed? ==> Result(s).url.scheme == scheme
  {
    var n := |scheme|;
    var m := UNMARKED.(scheme := Some(0));
    var front := s[0..n + 3];
    assert front == scheme + "://";
    assert s[..n] == front[..n] == scheme && s[n..n + 3] == front[n..] == "://";
    T.SchemeStage(s, n);
    SchemeMarkStays(s, n + 3, Authority, m);
    ShapeFromAuthority(s, n);
    hide Run, Number, PortText;
    var (st, marks) := Run(s, 0, Begin, UNMARKED);
    if st != Reject && st != Elsewhere {
      FindScheme(s, n, End(marks.host, |s|));
    }
  }

  /** The scheme's colon lies before the host, or before the end when there is none. */
  lemma ShapeFromAuthority(s: string, n: nat)
    requires n + 3 <= |s| && T.SchemeOk(s[..n]) && s[n..n + 3] == "://"
    ensures var (st, m) := Run(s, 0, Begin, UNMARKED);
            st != Reject && st != Elsewhere ==> n < End(m.host, |s|) <= |s|
  {
    T.SchemeStage(s, n);
    SchemeMarkStays(s, n + 3, Authority, UNMARKED.(scheme := Some(0)));
    P.StartShape(s);
    P.ShapeRun(s, 0, Begin, UNMARKED);
    var (st, m) := Run(s, 0, Begin, UNMARKED);
    P.AnyStart(s, st, m);
    hide Run;
    if st != Reject && st != Elsewhere && m.host.Some? && st != Authority {
      assert P.Schemed(s, m.host.value);
      assert s[n] == s[n..n + 3][0] == ':';
      assert forall k :: 0 <= k < n ==> s[k] == s[..n][k] && SchemeChar(s[..n][k]);
    }
  }

  lemma FindScheme(s: string, n: nat, end: nat)
    requires n + 3 <= |s| && T.SchemeOk(s[..n]) && s[n..n + 3] == "://" && n < end <= |s|
    ensures Find(s, 0, end, ':') == n
  {
    assert s[n] == s[n..n + 3][0];
    assert forall k :: 0 <= k < n ==> s[k] == s[..n][k] && SchemeChar(s[..n][k]);
    var i := Find(s, 0, end, ':');
    assert i == n;
  }

  /** `CreateUrl` on the URLs whose hosts the model covers; elsewhere its result is `other`. */
  function Parse(s: string, other: string -> Option<Url>): Option<Url> {
    match Result(s)
    case Parsed(u) => Some(u)
    case NotModelled => other(s)
    case _ => None
  }

  lemma ParseReads(x: string, other: string -> Option<Url>)
    requires ReadsScheme(other) && Parse(x, other).Some?
    ensures StartsWith(x, HTTP) ==> Parse(x, other).value.scheme == "http"
    ensures StartsWith(x, HTTPS) ==> Parse(x, other).value.scheme == "https"
  {
    hide Result, At;
    if Result(x).Parsed? {
      assert HTTP == "http" + "://" && HTTPS == "https" + "://";
      if StartsWith(x, HTTP) {
        SchemeRead(x, "http");
      }
      if StartsWith(x, HTTPS) {
        SchemeRead(x, "https");
      }
    }
  }

  /** So `CreateUrl` reads the scheme off every URL, if it does so for hosts outside the model. */
  lemma ParseReadsScheme(other: string -> Option<Url>)
    requires ReadsScheme(other)
    ensures ReadsScheme(s => Parse(s, other))
  {
    hide Parse, StartsWith;
    forall x | Parse(x, other).Some?
      ensures StartsWith(x, HTTP) ==> Parse(x, other).value.scheme == "http"
      ensures StartsWith(x, HTTPS) ==> Parse(x, other).value.scheme == "https"
    {
      ParseReads(x, other);
    }
  }

  /** No scheme has a colon in it. */
  lemma SchemeHasNoColon(s: string)
    ensures Result(s).Parsed? ==> ':' !in Result(s).url.scheme
  {
    hide Run, Number, PortText;
    var (st, m) := Run(s, 0, Begin, UNMARKED);
    if Result(s).Parsed? && m.scheme.Some? && m.scheme.value <= End(m.host, |s|) <= |s| {
      var p, i := m.scheme.value, Find(s, m.scheme.value, End(m.host, |s|), ':');
      assert forall k :: 0 <= k < i - p ==> s[p..i][k] == s[p + k];
    }
  }

  /** The characters that end an authority. */
  predicate EndsHost(c: char) {
    c == '/' || c == '?' || c == '#' || c == '\0'
  }

  predicate Unended(t: string) {
    forall k :: 0 <= k < |t| ==> !EndsHost(t[k])
  }

  /** Where the automaton stands, none of them is behind the start of the host and before the path, and the
      path starts with one. */
  predicate HostClear(s: string, p: nat, st: St, m: Marks)
    requires p <= |s|
  {
    match st
    case Reject => true
    case Elsewhere => true
    case Begin => m == UNMARKED
    case Scheme => Hostless(m)
    case Colon => Hostless(m)
    case Slash => Hostless(m)
    case Authority => Hostless(m)
    case Name => m.path.None? && m.host.Some? && m.host.value <= p && Unended(s[m.host.value..p])
    case NameColon => m.path.None? && m.host.Some? && m.host.value <= p && Unended(s[m.host.value..p])
    case Port => m.path.None? && m.host.Some? && m.host.value <= p && Unended(s[m.host.value..p])
    case _ =>
      && m.path.Some? && m.path.value < p && EndsHost(s[m.path.value])
      && (m.host.Some? ==> m.host.value <= m.path.value && Unended(s[m.host.value..m.path.value]))
  }

  predicate Hostless(m: Marks) {
    m.host.None? && m.path.None?
  }

  lemma HostClearNext(s: string, p: nat, st: St, m: Marks)
    requires p < |s| && HostClear(s, p, st, m)
    ensures var (next, marks) := Next(st, m, s[p], p); HostClear(s, p + 1, next, marks)
  {
    if m.host.Some? && m.host.value <= p {
      var h := m.host.value;
      assert s[h..p + 1] == s[h..p] + [s[p]];
    }
    if st.Begin? || st.Scheme? || st.Colon? || st.Slash? || st.Authority? {
      assert s[p..p + 1] == [s[p]];
    } else {
      HostClearLater(s, p, st, m);
    }
  }

  lemma HostClearLater(s: string, p: nat, st: St, m: Marks)
    requires p < |s| && HostClear(s, p, st, m)
    requires !st.Begin? && !st.Scheme? && !st.Colon? && !st.Slash? && !st.Authority?
    ensures var (next, marks) := Next(st, m, s[p], p); HostClear(s, p + 1, next, marks)
  {
    if m.host.Some? && m.host.value <= p {
      var h := m.host.value;
      assert s[h..p + 1] == s[h..p] + [s[p]];
    }
  }

  lemma {:induction false} HostClearRun(s: string, p: nat, st: St, m: Marks)
    requires p <= |s| && HostClear(s, p, st, m)
    ensures var (last, marks) := Run(s, p, st, m); HostClear(s, |s|, last, marks)
    decreases |s| - p
  {
    hide HostClear, Next;
    if p < |s| {
      HostClearNext(s, p, st, m);
      var (next, marks) := Next(st, m, s[p], p);
      HostClearRun(s, p + 1, next, marks);
    }
  }

  /** No authority has a `/`, `?`, `#` or NUL in it, and a path that is not empty starts with one of them. */
  lemma AuthorityEnds(s: string)
    ensures Result(s).Parsed? ==>
              var u := Result(s).url; Unended(Rewriter.Authority(u)) && (u.path != "" ==> EndsHost(u.path[0]))
  {
    HostClearRun(s, 0, Begin, UNMARKED);
    P.StartShape(s);
    P.ShapeRun(s, 0, Begin, UNMARKED);
    hide Run, Number, PortText, Decimal;
    var (st, m) := Run(s, 0, Begin, UNMARKED);
    if Result(s).Parsed? {
      var u := Result(s).url;
      UnendedPort(u.port);
      HostCut(s, st, m);
    }
  }

  lemma AuthorityHasNoSlash(s: string)
    ensures Result(s).Parsed? ==> '/' !in Rewriter.Authority(Result(s).url)
  {
    AuthorityEnds(s);
    hide Result, Rewriter.Authority;
  }

  lemma HostCut(s: string, st: St, m: Marks)
    requires st != Reject && st != Elsewhere && HostClear(s, |s|, st, m) && P.Shape(s, |s|, st, m)
    ensures m.host.Some? ==> Unended(Cut(s, m.host.value, HostEnd(s, m)))
    ensures m.userinfo.Some? ==> m.host.Some? && Cut(s, m.userinfo.value, Before(m.host, |s|)) == ""
    ensures m.path.Some? ==> var path := Cut(s, m.path.value, PathEnd(s, m)); path != "" ==> EndsHost(path[0])
  {
    if m.host.Some? {
      var h, e := m.host.value, End(m.path, |s|);
      assert Unended(s[h..e]);
      var c := Cut(s, h, HostEnd(s, m));
      assert HostEnd(s, m) <= e;
      assert forall k :: 0 <= k < |c| ==> c[k] == s[h..e][k];
    }
  }

  lemma {:induction false} UnendedDecimal(n: nat)
    ensures Unended(Decimal(n))
  {
    if n >= 10 {
      UnendedDecimal(n / 10);
    }
  }

  lemma UnendedPort(port: nat)
    ensures Unended(PortPart(port))
  {
    UnendedDecimal(port);
  }

  // ---- The path of a request ----------------------------------------------------------------

  predicate Unquestioned(s: string, p: nat) {
    forall k :: p <= k < |s| ==> s[k] != '?' && s[k] != '#'
  }

  predicate InPath(st: St) {
    st.Path? || st.Percent? || st.PercentHex? || st.Nul? || st.Reject? || st.Elsewhere?
  }

  lemma {:induction false} PathOnly(s: string, p: nat, st: St, m: Marks)
    requires p <= |s| && InPath(st) && Unquestioned(s, p)
    ensures Run(s, p, st, m).1 == m
    decreases |s| - p
  {
    if p < |s| {
      var (next, marks) := Next(st, m, s[p], p);
      PathOnly(s, p + 1, next, marks);
    }
  }

  /** Path characters and escapes, the last of which may be cut short; a NUL may end it. */
  predicate PathText(t: string) {
    t == "" || t == "\0" ||
    if t[0] == '%' then
      |t| == 1 || (Percent.HexDigit(t[1]) && (|t| == 2 || (Percent.HexDigit(t[2]) && PathText(t[3..]))))
    else PathChar(t[0]) && PathText(t[1..])
  }

  predicate Accepting(st: St) {
    st != Reject && st != Elsewhere
  }

  lemma {:induction false} PathTextRead(s: string, p: nat, m: Marks)
    requires p <= |s| && Unquestioned(s, p)
    ensures Accepting(Run(s, p, Path, m).0) <==> PathText(s[p..])
    decreases |s| - p
  {
    var t := s[p..];
    if p < |s| {
      assert t[0] == s[p] && t[1..] == s[p + 1..];
      T.Step(s, p, Path, m);
      if s[p] == '%' {
        EscapeRead(s, p, m);
        if p + 3 <= |s| {
          PathTextRead(s, p + 3, m);
          assert t[3..] == s[p + 3..];
        }
      } else if s[p] == '\0' {
        NulRead(s, p + 1, m);
      } else if PathChar(s[p]) {
        PathTextRead(s, p + 1, m);
      } else {
        P.Stuck(s, p + 1, Next(Path, m, s[p], p).0, m);
      }
    }
  }

  lemma EscapeRead(s: string, p: nat, m: Marks)
    requires p < |s| && s[p] == '%'
    ensures Accepting(Run(s, p, Path, m).0)
            <==> p + 1 == |s| || (Percent.HexDigit(s[p + 1])
                 && (p + 2 == |s| || (Percent.HexDigit(s[p + 2]) && Accepting(Run(s, p + 3, Path, m).0))))
  {
    T.Step(s, p, Path, m);
    if p + 1 < |s| {
      T.Step(s, p + 1, Percent, m);
      if p + 2 < |s| && Percent.HexDigit(s[p + 1]) {
        T.Step(s, p + 2, PercentHex, m);
        P.Stuck(s, p + 3, Next(PercentHex, m, s[p + 2], p + 2).0, m);
      } else {
        P.Stuck(s, p + 2, Next(St.Percent, m, s[p + 1], p + 1).0, m);
      }
    }
  }

  lemma NulRead(s: string, p: nat, m: Marks)
    requires p <= |s|
    ensures Accepting(Run(s, p, Nul, m).0) <==> p == |s|
  {
    if p < |s| {
      T.Step(s, p, Nul, m);
      P.Stuck(s, p + 1, Reject, m);
    }
  }

  /** A request target that starts with a slash, and has no `?` and no `#`, is accepted just when it is path text. */
  lemma TargetAccepted(s: string)
    requires s != "" && s[0] == '/' && Unquestioned(s, 0)
    ensures Result(s).Parsed? <==> PathText(s)
  {
    var m := UNMARKED.(path := Some(0));
    T.Step(s, 0, Begin, UNMARKED);
    PathOnly(s, 1, Path, m);
    PathTextRead(s, 1, m);
    assert PathChar('/');
    hide Run;
  }

  /** A request target without `?` and `#` is its own path. */
  lemma WholeIsPath(s: string)
    requires s != "" && s[0] == '/' && Unquestioned(s, 0)
    ensures Result(s).Parsed? ==> GetPath(Result(s).url) == s
  {
    T.Step(s, 0, Begin, UNMARKED);
    PathOnly(s, 1, Path, UNMARKED.(path := Some(0)));
  }

  predicate InQuery(st: St) {
    st.Query? || st.Nul? || st.Reject? || st.Elsewhere?
  }

  lemma {:induction false} QueryOnly(s: string, p: nat, st: St, m: Marks)
    requires p <= |s| && InQuery(st) && Unhashed(s, p)
    ensures Run(s, p, st, m).1 == m
    decreases |s| - p
  {
    if p < |s| {
      var (next, marks) := Next(st, m, s[p], p);
      QueryOnly(s, p + 1, next, marks);
    }
  }

  predicate Unhashed(s: string, p: nat) {
    forall k :: p <= k < |s| ==> s[k] != '#'
  }

  lemma {:induction false} PathThenQuery(s: string, p: nat, q: nat, st: St, m: Marks)
    requires p <= q < |s| && InPath(st) && m.query == m.fragment == None
    requires (forall k :: p <= k < q ==> s[k] != '?' && s[k] != '#') && s[q] == '?' && Unhashed(s, q)
    ensures Accepting(Run(s, p, st, m).0) ==> Run(s, p, st, m).1 == if q + 1 < |s| then m.(query := Some(q + 1)) else m
    decreases q - p
  {
    var (next, marks) := Next(st, m, s[p], p);
    if p < q {
      PathThenQuery(s, p + 1, q, next, marks);
    } else {
      P.Stuck(s, p + 1, next, marks);
      if st.Path? && q + 1 < |s| {
        T.Step(s, q + 1, Question, m);
        var (next2, marks2) := Next(Question, m, s[q + 1], q + 1);
        P.Stuck(s, q + 2, next2, marks2);
        QueryOnly(s, q + 2, next2, marks2);
      }
    }
  }

  /** Path text with every escape complete, and no NUL. */
  predicate WholePath(t: string) {
    t == "" ||
    if t[0] == '%' then
      |t| >= 3 && Percent.HexDigit(t[1]) && Percent.HexDigit(t[2]) && WholePath(t[3..])
    else PathChar(t[0]) && WholePath(t[1..])
  }

  /** Printable characters; a NUL may end them. */
  predicate QueryText(t: string) {
    t == "" || t == "\0" || (Printable(t[0]) && QueryText(t[1..]))
  }

  lemma {:induction false} QueryTextRead(s: string, p: nat, st: St, m: Marks)
    requires p <= |s| && Unhashed(s, p) && (st.Question? || st.Query?)
    ensures Accepting(Run(s, p, st, m).0) <==> QueryText(s[p..])
    decreases |s| - p
  {
    if p < |s| {
      var t := s[p..];
      assert t[0] == s[p] && t[1..] == s[p + 1..];
      T.Step(s, p, st, m);
      var (next, marks) := Next(st, m, s[p], p);
      if s[p] == '\0' {
        NulRead(s, p + 1, marks);
      } else if Printable(s[p]) {
        QueryTextRead(s, p + 1, next, marks);
      } else {
        P.Stuck(s, p + 1, next, marks);
      }
    }
  }

  lemma {:induction false} WholePathRead(s: string, p: nat, q: nat, m: Marks)
    requires p <= q < |s| && s[q] == '?' && forall k :: p <= k < q ==> s[k] != '?' && s[k] != '#'
    ensures Accepting(Run(s, p, Path, m).0) <==> WholePath(s[p..q]) && Accepting(Run(s, q + 1, Question, m).0)
    decreases q - p
  {
    var t := s[p..q];
    T.Step(s, p, Path, m);
    if p < q {
      assert t[0] == s[p] && t[1..] == s[p + 1..q];
      if s[p] == '%' {
        WholeEscapeRead(s, p, q, m);
        if p + 3 <= q {
          WholePathRead(s, p + 3, q, m);
          assert t[3..] == s[p + 3..q];
        }
      } else if PathChar(s[p]) {
        WholePathRead(s, p + 1, q, m);
      } else if s[p] == '\0' {
        NulRead(s, p + 1, m);
      } else {
        P.Stuck(s, p + 1, Next(Path, m, s[p], p).0, m);
      }
    }
  }

  /** An escape that is cut off by the question mark is rejected. */
  lemma WholeEscapeRead(s: string, p: nat, q: nat, m: Marks)
    requires p < q < |s| && s[p] == '%' && s[q] == '?'
    ensures Accepting(Run(s, p, Path, m).0)
            <==> p + 3 <= q && Percent.HexDigit(s[p + 1]) && Percent.HexDigit(s[p + 2])
                 && Accepting(Run(s, p + 3, Path, m).0)
  {
    EscapeRead(s, p, m);
    assert !Percent.HexDigit('?');
  }

  /** A request target with a query is accepted just when its path is whole and its query printable. */
  lemma QueryTargetAccepted(path: string, query: string)
    requires path != "" && path[0] == '/' && Unquestioned(path, 0) && Unhashed(query, 0)
    ensures Result(path + "?" + query).Parsed? <==> WholePath(path) && QueryText(query)
  {
    var s, q := path + "?" + query, |path|;
    SplitAtMark(path, query);
    MarksOfTarget(s, q);
    T.Step(s, 0, Begin, UNMARKED);
    WholePathRead(s, 1, q, UNMARKED.(path := Some(0)));
    QueryTextRead(s, q + 1, Question, UNMARKED.(path := Some(0)));
    assert s[1..q] == path[1..] && PathChar('/');
    hide Run;
  }

  lemma SplitAtMark(path: string, query: string)
    requires Unquestioned(path, 0) && Unhashed(query, 0)
    ensures var s, q := path + "?" + query, |path|;
            && s[q] == '?' && s[..q] == s[0..q] == path && s[q + 1..] == query && Unhashed(s, q)
            && forall k :: 0 <= k < q ==> s[k] == path[k] && s[k] != '?' && s[k] != '#'
  {
    var s, q := path + "?" + query, |path|;
    assert forall k :: q < k < |s| ==> s[k] == query[k - q - 1];
  }

  /** The query is not part of the path; a question mark with nothing behind it is. */
  lemma QueryIsNotPath(path: string, query: string)
    requires path != "" && path[0] == '/' && Unquestioned(path, 0) && Unhashed(query, 0)
    ensures Result(path + "?" + query).Parsed? ==>
              GetPath(Result(path + "?" + query).url) == if query == "" then path + "?" else path
  {
    var s, q := path + "?" + query, |path|;
    SplitAtMark(path, query);
    MarksOfTarget(s, q);
    if Result(s).Parsed? {
      CarvesPath(s, q);
    }
  }

  lemma MarksOfTarget(s: string, q: nat)
    requires 0 < q < |s| && s[0] == '/' && s[q] == '?' && Unhashed(s, q)
    requires forall k :: 0 <= k < q ==> s[k] != '?' && s[k] != '#'
    ensures Accepting(Run(s, 0, Begin, UNMARKED).0) ==> Run(s, 0, Begin, UNMARKED).1 == TargetMarks(s, q)
  {
    T.Step(s, 0, Begin, UNMARKED);
    PathThenQuery(s, 1, q, Path, UNMARKED.(path := Some(0)));
    hide Run;
  }

  function TargetMarks(s: string, q: nat): Marks {
    UNMARKED.(path := Some(0), query := if q + 1 < |s| then Some(q + 1) else None)
  }

  lemma CarvesPath(s: string, q: nat)
    requires 0 < q < |s|
    ensures Result(s).Parsed? && Run(s, 0, Begin, UNMARKED).1 == TargetMarks(s, q) ==>
              GetPath(Result(s).url) == if q + 1 < |s| then s[..q] else s
  {
    hide Run, Number;
    assert s[0..q] == s[..q] && s[0..|s|] == s;
  }

  // ---- The whole way ------------------------------------------------------------------------

  /** Requesting a rewritten link that resolves to path text, without `?` and `#`, fetches the URL it stands
      for on exactly the links named; a link that resolves to anything else is not a request target. */
  lemma LinkRoundTrip(link: string, u: Url, parse: string -> Option<Url>)
    requires ReadsScheme(parse) && link != "" && !Special(link) && ':' !in u.scheme && '/' !in Rewriter.Authority(u)
    requires Unquestioned(Resolved(link, u), 0)
    ensures var target := Result(Rewritten(link, Some(u), BLUE));
            && (target.Parsed? <==> PathText(Resolved(link, u)))
            && (target.Parsed? ==>
                  (Routed(GetPath(target.url), parse) == Some(Resolved(link, u)) <==> FetchedBack(link, u)))
  {
    hide Routed, Leading, Result, Resolved, FetchedBack, Special, PathText, Rewriter.Authority;
    var t := BLUE + "/" + Resolved(link, u);
    assert Rewritten(link, Some(u), BLUE) == t;
    UnderBlue(Resolved(link, u));
    TargetAccepted(t);
    WholeIsPath(t);
    RewriteThenRoute(link, u, parse);
  }

  /** A query of the link is not fetched with it: the path that is routed ends before the `?`. */
  lemma QueryIsDropped(path: string, query: string, parse: string -> Option<Url>)
    requires ReadsScheme(parse) && Leading(path) && Unquestioned(path, 0) && query != "" && Unhashed(query, 0)
    ensures var t := BLUE + "/" + path + "?" + query;
            Result(t).Parsed? ==> Routed(GetPath(Result(t).url), parse) == Some(path)
  {
    hide Routed, Leading, Result;
    UnderBlue(path);
    QueryIsNotPath(BLUE + "/" + path, query);
    RouteEmbedded(path, parse);
  }

  /** A link with a query is fetched back only if the query is empty: then the question mark stays in the path. */
  lemma QueryLinkRoundTrip(link: string, u: Url, path: string, query: string, parse: string -> Option<Url>)
    requires ReadsScheme(parse) && link != "" && !Special(link) && ':' !in u.scheme && '/' !in Rewriter.Authority(u)
    requires Resolved(link, u) == path + "?" + query && Unquestioned(path, 0) && Unhashed(query, 0)
    ensures var target := Result(Rewritten(link, Some(u), BLUE));
            && (target.Parsed? <==> WholePath(path) && QueryText(query))
            && (target.Parsed? ==>
                  (Routed(GetPath(target.url), parse) == Some(Resolved(link, u))
                   <==> query == "" && FetchedBack(link, u)))
  {
    hide Routed, Result, Resolved, FetchedBack, Special, WholePath, QueryText, Rewriter.Authority;
    var r := path + "?" + query;
    assert Rewritten(link, Some(u), BLUE) == BLUE + "/" + path + "?" + query by {
      assert BLUE + "/" + r == BLUE + "/" + path + "?" + query;
    }
    UnderBlue(path);
    QueryTargetAccepted(BLUE + "/" + path, query);
    QueryIsNotPath(BLUE + "/" + path, query);
    RewriteThenRoute(link, u, parse);
    NotFromPath(path, query, parse);
    assert query == "" ==> BLUE + "/" + path + "?" == BLUE + "/" + path + "?" + query;
  }

  /** Without its query a URL does not lead to itself. */
  lemma NotFromPath(path: string, query: string, parse: string -> Option<Url>)
    requires ReadsScheme(parse)
    ensures Routed(BLUE + "/" + path, parse) != Some(path + "?" + query)
  {
    var t, r := BLUE + "/" + path, path + "?" + query;
    assert t == "/blue/" + path;
    if Leading(path) {
      RouteEmbedded(path, parse);
      assert |path| < |r|;
    } else if SchemeAt(t).Some? {
      SchemeAfterBlue(t);
      NotFromLater(t, path, SchemeAt(t).value, r, parse);
    }
  }

  lemma NotFromLater(t: string, path: string, p: nat, r: string, parse: string -> Option<Url>)
    requires ReadsScheme(parse) && t == "/blue/" + path && SchemeAt(t) == Some(p) && p >= 6 && !Leading(path)
    requires |path| < |r| && r[..|path|] == path
    ensures Routed(t, parse) != Some(r)
  {
    hide FindText, Repathed, WithoutFirstSlash, Trimmed;
    FindBehind(t, path, HTTP);
    FindBehind(t, path, HTTPS);
    var target := t[p..];
    var scheme := if FindText(t, HTTP, 0).Some? then HTTP else HTTPS;
    assert target[0..|scheme|] == t[p..p + |scheme|] && StartsWith(target, scheme);
    assert |target| <= |path|;
    assert r[0..|scheme|] == path[0..|scheme|];
    if parse(target).Some? {
      RepathedLeads(parse(target).value, WithoutFirstSlash(Trimmed(t[5..p])));
    }
  }

  lemma UnderBlue(path: string)
    requires Unquestioned(path, 0)
    ensures var t := BLUE + "/" + path; t != "" && t[0] == '/' && Unquestioned(t, 0)
    ensures PathText(BLUE + "/" + path) <==> PathText(path)
    ensures WholePath(BLUE + "/" + path) <==> WholePath(path)
  {
    var t := BLUE + "/" + path;
    assert forall k :: 6 <= k < |t| ==> t[k] == path[k - 6];
    hide PathText, WholePath;
    PathCharThen('/', "blue/" + path);
    PathCharThen('b', "lue/" + path);
    PathCharThen('l', "ue/" + path);
    PathCharThen('u', "e/" + path);
    PathCharThen('e', "/" + path);
    PathCharThen('/', path);
    Spelled(path);
  }

  lemma PathCharThen(c: char, t: string)
    requires PathChar(c) && c != '%'
    ensures PathText([c] + t) <==> PathText(t)
    ensures WholePath([c] + t) <==> WholePath(t)
  {
    assert ([c] + t)[1..] == t;
  }

  lemma Spelled(path: string)
    ensures BLUE + "/" + path == ['/'] + ("blue/" + path)
    ensures "blue/" + path == ['b'] + ("lue/" + path) && "lue/" + path == ['l'] + ("ue/" + path)
    ensures "ue/" + path == ['u'] + ("e/" + path) && "e/" + path == ['e'] + ("/" + path) && "/" + path == ['/'] + path
  {
  }
}
