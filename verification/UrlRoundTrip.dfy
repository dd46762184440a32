/** Texts put together from components: what the parser makes of each of them, and when parsing and
    printing give the components and the text back. */
module UrlRoundTrip {
  import opened Options
  import Percent
  import opened Search
  import opened UrlParser
  import opened UrlPrinting

  datatype Parts = Parts(scheme: string, name: string, port: Option<string>, path: string,
                         query: Option<string>, fragment: Option<string>)

  /** Path characters and escapes. */
  predicate PathOk(path: string) {
    path == "" ||
    if path[0] == '%' then |path| >= 3 && Percent.HexDigit(path[1]) && Percent.HexDigit(path[2]) && PathOk(path[3..])
    else PathChar(path[0]) && PathOk(path[1..])
  }

  predicate AllPrintable(t: string) {
    forall k :: 0 <= k < |t| ==> Printable(t[k])
  }

  predicate QueryOk(t: string) {
    forall k :: 0 <= k < |t| ==> Printable(t[k]) && t[k] != '#'
  }

  predicate SchemeOk(t: string) {
    t != "" && Letter(t[0]) && forall k :: 0 <= k < |t| ==> SchemeChar(t[k])
  }

  predicate NameOk(t: string) {
    t != "" && NameStart(t[0]) && forall k :: 0 <= k < |t| ==> NameChar(t[k])
  }

  predicate WellFormed(u: Parts) {
    && SchemeOk(u.scheme) && NameOk(u.name)
    && (u.port.Some? ==> Digits(u.port.value))
    && (u.path != "" ==> u.path[0] == '/' && PathOk(u.path))
    && (u.query.Some? ==> QueryOk(u.query.value))
    && (u.fragment.Some? ==> AllPrintable(u.fragment.value))
  }

  function Led(delimiter: string, part: Option<string>): string {
    if part.Some? then delimiter + part.value else ""
  }

  function Text(u: Parts): string {
    u.scheme + "://" + u.name + Led(":", u.port) + u.path + Led("?", u.query) + Led("#", u.fragment)
  }

  // ---- Where the components lie -------------------------------------------------------------

  function HostAt(u: Parts): nat { |u.scheme| + 3 }

  function PortAt(u: Parts): nat { HostAt(u) + |u.name| }

  function PathAt(u: Parts): nat { PortAt(u) + |Led(":", u.port)| }

  function QueryAt(u: Parts): nat { PathAt(u) + |u.path| }

  function FragmentAt(u: Parts): nat { QueryAt(u) + |Led("?", u.query)| }

  lemma Layout(u: Parts)
    ensures var s := Text(u);
            && FragmentAt(u) <= |s|
            && s[..|u.scheme|] == u.scheme && s[|u.scheme|..HostAt(u)] == "://" && s[HostAt(u)..PortAt(u)] == u.name
            && s[PortAt(u)..PathAt(u)] == Led(":", u.port) && s[PathAt(u)..QueryAt(u)] == u.path
            && s[QueryAt(u)..FragmentAt(u)] == Led("?", u.query) && s[FragmentAt(u)..] == Led("#", u.fragment)
  {
    hide Led;
  }

  // ---- Running over one component -----------------------------------------------------------

  lemma Step(s: string, p: nat, st: St, m: Marks)
    requires p < |s|
    ensures Run(s, p, st, m) == Run(s, p + 1, Next(st, m, s[p], p).0, Next(st, m, s[p], p).1)
  {
  }

  lemma {:induction false} Loop(s: string, p: nat, k: nat, st: St, m: Marks)
    requires p <= k <= |s| && forall i :: p <= i < k ==> Next(st, m, s[i], i) == (st, m)
    ensures Run(s, p, st, m) == Run(s, k, st, m)
    decreases k - p
  {
    hide Next;
    if p < k {
      Loop(s, p + 1, k, st, m);
    }
  }

  lemma {:induction false} PathLoop(s: string, p: nat, k: nat, m: Marks)
    requires p <= k <= |s| && PathOk(s[p..k])
    ensures Run(s, p, Path, m) == Run(s, k, Path, m)
    decreases k - p
  {
    if p < k {
      assert s[p..k][0] == s[p];
      if s[p] == '%' {
        assert s[p..k][1] == s[p + 1] && s[p..k][2] == s[p + 2];
        assert s[p..k][3..] == s[p + 3..k];
        Escape(s, p, m);
        PathLoop(s, p + 3, k, m);
      } else {
        assert s[p..k][1..] == s[p + 1..k];
        Step(s, p, Path, m);
        PathLoop(s, p + 1, k, m);
      }
    }
  }

  lemma Escape(s: string, p: nat, m: Marks)
    requires p + 3 <= |s| && s[p] == '%' && Percent.HexDigit(s[p + 1]) && Percent.HexDigit(s[p + 2])
    ensures Run(s, p, Path, m) == Run(s, p + 3, Path, m)
  {
    Step(s, p, Path, m);
    Step(s, p + 1, Percent, m);
    Step(s, p + 2, PercentHex, m);
  }

  // ---- Stages -------------------------------------------------------------------------------

  function AfterName(u: Parts): (St, Marks) {
    (Name, UNMARKED.(scheme := Some(0), userinfo := Some(HostAt(u)), host := Some(HostAt(u))))
  }

  function AfterPort(u: Parts): (St, Marks) {
    var (st, m) := AfterName(u);
    if u.port.None? then (st, m)
    else if u.port.value == "" then (NameColon, m)
    else (Port, m.(port := Some(PortAt(u) + 1)))
  }

  /** The marks where the host ends: an empty port is only noted here. */
  function HostEnds(st: St, m: Marks, p: nat): Marks {
    if st.NameColon? then m.(port := Some(p), path := Some(p)) else m.(path := Some(p))
  }

  function AfterPath(u: Parts): (St, Marks) {
    var (st, m) := AfterPort(u);
    if u.path == "" then (st, m) else (Path, HostEnds(st, m, PathAt(u)))
  }

  function AfterQuery(u: Parts): (St, Marks) {
    var (st, m) := AfterPath(u);
    if u.query.None? then (st, m) else
      var n := if st.Path? then m else HostEnds(st, m, QueryAt(u));
      if u.query.value == "" then (Question, n) else (Query, n.(query := Some(QueryAt(u) + 1)))
  }

  function AfterFragment(u: Parts): (St, Marks) {
    var (st, m) := AfterQuery(u);
    if u.fragment.None? then (st, m) else
      var n := if st.Path? || st.Query? then m
               else if st.Question? then m.(query := Some(FragmentAt(u)))
               else HostEnds(st, m, FragmentAt(u));
      if u.fragment.value == "" then (Hash, n) else (Fragment, n.(fragment := Some(FragmentAt(u) + 1)))
  }

  lemma SchemeStage(s: string, n: nat)
    requires n + 3 <= |s| && SchemeOk(s[..n]) && s[n..n + 3] == "://"
    ensures Run(s, 0, Begin, UNMARKED) == Run(s, n + 3, Authority, UNMARKED.(scheme := Some(0)))
  {
    var m := UNMARKED.(scheme := Some(0));
    assert s[0] == s[..n][0] && s[n] == s[n..n + 3][0] && s[n + 1] == s[n..n + 3][1] && s[n + 2] == s[n..n + 3][2];
    assert forall i :: 0 <= i < n ==> s[i] == s[..n][i];
    Step(s, 0, Begin, UNMARKED);
    Loop(s, 1, n, Scheme, m);
    Step(s, n, Scheme, m);
    Step(s, n + 1, Colon, m);
    Step(s, n + 2, Slash, m);
  }

  lemma NameStage(s: string, h: nat, n: nat)
    requires h <= n <= |s| && NameOk(s[h..n])
    ensures Run(s, h, Authority, UNMARKED.(scheme := Some(0)))
            == Run(s, n, Name, UNMARKED.(scheme := Some(0), userinfo := Some(h), host := Some(h)))
  {
    var m := UNMARKED.(scheme := Some(0));
    assert forall i :: h <= i < n ==> s[i] == s[h..n][i - h];
    Step(s, h, Authority, m);
    Loop(s, h + 1, n, Name, m.(userinfo := Some(h), host := Some(h)));
  }

  lemma PortStage(u: Parts, s: string)
    requires WellFormed(u) && PathAt(u) <= |s| && s[PortAt(u)..PathAt(u)] == Led(":", u.port)
    ensures var (st, m) := AfterName(u); var (st2, m2) := AfterPort(u);
            Run(s, PortAt(u), st, m) == Run(s, PathAt(u), st2, m2)
  {
    hide PathOk, SchemeOk, NameOk, AllPrintable, QueryOk;
    var p, q, m := PortAt(u), PathAt(u), AfterName(u).1;
    if u.port.Some? {
      assert s[p] == s[p..q][0];
      Step(s, p, Name, m);
      if u.port.value != "" {
        assert s[p + 1..q] == s[p..q][1..] == u.port.value;
        PortLoop(s, p + 1, q, m);
      }
    }
  }

  lemma PortLoop(s: string, p: nat, q: nat, m: Marks)
    requires p < q <= |s| && Digits(s[p..q])
    ensures Run(s, p, NameColon, m) == Run(s, q, Port, m.(port := Some(p)))
  {
    assert forall i :: p <= i < q ==> s[i] == s[p..q][i - p];
    Step(s, p, NameColon, m);
    Loop(s, p + 1, q, Port, m.(port := Some(p)));
  }

  predicate InHost(st: St) {
    st.Name? || st.NameColon? || st.Port?
  }

  /** From the host, the three delimiters lead to the states after it. */
  lemma LeaveHost(s: string, p: nat, st: St, m: Marks)
    requires p < |s| && InHost(st)
    ensures s[p] == '/' ==> Run(s, p, st, m) == Run(s, p + 1, Path, HostEnds(st, m, p))
    ensures s[p] == '?' ==> Run(s, p, st, m) == Run(s, p + 1, Question, HostEnds(st, m, p))
    ensures s[p] == '#' ==> Run(s, p, st, m) == Run(s, p + 1, Hash, HostEnds(st, m, p))
  {
    Step(s, p, st, m);
    hide Run;
  }

  lemma PathStage(u: Parts, s: string)
    requires WellFormed(u) && QueryAt(u) <= |s| && s[PathAt(u)..QueryAt(u)] == u.path
    ensures var (st, m) := AfterPort(u); var (st2, m2) := AfterPath(u);
            Run(s, PathAt(u), st, m) == Run(s, QueryAt(u), st2, m2)
  {
    hide Next, SchemeOk, NameOk, QueryOk, AllPrintable, Digits;
    var p, q := PathAt(u), QueryAt(u);
    var (st, m) := AfterPort(u);
    if u.path != "" {
      assert s[p] == s[p..q][0];
      LeaveHost(s, p, st, m);
      assert s[p + 1..q] == u.path[1..];
      PathLoop(s, p + 1, q, HostEnds(st, m, p));
    }
  }

  lemma QueryLoop(s: string, p: nat, q: nat, m: Marks)
    requires p < q <= |s| && QueryOk(s[p..q])
    ensures Run(s, p, Question, m) == Run(s, q, Query, m.(query := Some(p)))
  {
    assert forall i :: p <= i < q ==> s[i] == s[p..q][i - p];
    Step(s, p, Question, m);
    Loop(s, p + 1, q, Query, m.(query := Some(p)));
  }

  lemma QueryStage(u: Parts, s: string)
    requires WellFormed(u) && FragmentAt(u) <= |s| && s[QueryAt(u)..FragmentAt(u)] == Led("?", u.query)
    ensures var (st, m) := AfterPath(u); var (st2, m2) := AfterQuery(u);
            Run(s, QueryAt(u), st, m) == Run(s, FragmentAt(u), st2, m2)
  {
    var p, q := QueryAt(u), FragmentAt(u);
    var (st, m) := AfterPath(u);
    hide PathOk, Digits, SchemeOk, NameOk, AllPrintable, QueryOk, Next, Run;
    if u.query.Some? {
      assert s[p] == s[p..q][0];
      var n := if st.Path? then m else HostEnds(st, m, p);
      ToQuestion(s, p, st, m);
      if u.query.value != "" {
        assert s[p + 1..q] == u.query.value;
        QueryLoop(s, p + 1, q, n);
      }
    }
  }

  lemma ToQuestion(s: string, p: nat, st: St, m: Marks)
    requires p < |s| && s[p] == '?' && (InHost(st) || st.Path?)
    ensures Run(s, p, st, m) == Run(s, p + 1, Question, if st.Path? then m else HostEnds(st, m, p))
  {
    Step(s, p, st, m);
    hide Run;
  }

  lemma FragmentLoop(s: string, p: nat, m: Marks)
    requires p < |s| && AllPrintable(s[p..])
    ensures Run(s, p, Hash, m) == (Fragment, m.(fragment := Some(p)))
  {
    assert forall i :: p <= i < |s| ==> s[i] == s[p..][i - p];
    Step(s, p, Hash, m);
    Loop(s, p + 1, |s|, Fragment, m.(fragment := Some(p)));
  }

  lemma FragmentStage(u: Parts, s: string)
    requires WellFormed(u) && FragmentAt(u) <= |s| && s[FragmentAt(u)..] == Led("#", u.fragment)
    ensures var (st, m) := AfterQuery(u);
            Run(s, FragmentAt(u), st, m) == AfterFragment(u)
  {
    var p := FragmentAt(u);
    var (st, m) := AfterQuery(u);
    hide PathOk, Digits, SchemeOk, NameOk, AllPrintable, QueryOk, Next;
    if u.fragment.Some? {
      assert s[p] == s[p..][0];
      var n := AfterHash(st, m, p);
      ToHash(s, p, st, m);
      if u.fragment.value != "" {
        assert s[p + 1..] == s[p..][1..] == u.fragment.value;
        FragmentLoop(s, p + 1, n);
      }
    }
  }

  function AfterHash(st: St, m: Marks, p: nat): Marks {
    if st.Path? || st.Query? then m else if st.Question? then m.(query := Some(p)) else HostEnds(st, m, p)
  }

  lemma ToHash(s: string, p: nat, st: St, m: Marks)
    requires p < |s| && s[p] == '#' && (InHost(st) || st.Path? || st.Query? || st.Question?)
    ensures Run(s, p, st, m) == Run(s, p + 1, Hash, AfterHash(st, m, p))
  {
    Step(s, p, st, m);
    hide Run;
  }

  /** The automaton reads every well-formed text to its end. */
  lemma RunOverText(u: Parts)
    requires WellFormed(u)
    ensures Run(Text(u), 0, Begin, UNMARKED) == AfterFragment(u)
  {
    Layout(u);
    var s := Text(u);
    SchemeStage(s, |u.scheme|);
    NameStage(s, HostAt(u), PortAt(u));
    PortStage(u, s);
    PathStage(u, s);
    QueryStage(u, s);
    FragmentStage(u, s);
    hide Run, Text, WellFormed, Led, AfterPort, AfterPath, AfterQuery, AfterFragment;
  }

  // ---- What the parser makes of the components ----------------------------------------------

  function Given(part: Option<string>): string {
    if part.Some? then part.value else ""
  }

  /** Nothing follows the port. */
  predicate NoTail(u: Parts) {
    u.path == "" && u.query.None? && u.fragment.None?
  }

  /** A trailing delimiter is not recognised: it stays at the end of the component before it. */
  function Trailing(delimiter: string, part: Option<string>): string {
    if part == Some("") then delimiter else ""
  }

  function HostOf(u: Parts): string {
    u.name + if NoTail(u) then Trailing(":", u.port) else ""
  }

  function PathOf(u: Parts): string {
    u.path + if u.query.Some? then (if u.fragment.None? then Trailing("?", u.query) else "")
             else Trailing("#", u.fragment)
  }

  function QueryOf(u: Parts): string {
    if u.query.Some? then u.query.value + Trailing("#", u.fragment) else ""
  }

  lemma LedLengths(u: Parts)
    ensures |Led(":", u.port)| == if u.port.Some? then 1 + |u.port.value| else 0
    ensures |Led("?", u.query)| == if u.query.Some? then 1 + |u.query.value| else 0
    ensures |Led("#", u.fragment)| == if u.fragment.Some? then 1 + |u.fragment.value| else 0
  {
  }

  /** The marks after the whole text, one by one. */
  lemma FinalMarks(u: Parts)
    ensures var (st, m) := AfterFragment(u);
      && m.scheme == Some(0) && m.userinfo == m.host == Some(HostAt(u))
      && m.port == (if u.port.None? || (u.port.value == "" && NoTail(u)) then None else Some(PortAt(u) + 1))
      && m.path == (if NoTail(u) then None else Some(PathAt(u)))
      && m.query == (if u.query.None? then None
                     else if u.query.value != "" then Some(QueryAt(u) + 1)
                     else if u.fragment.Some? then Some(FragmentAt(u)) else None)
      && m.fragment == (if u.fragment.Some? && u.fragment.value != "" then Some(FragmentAt(u) + 1) else None)
      && !st.Scheme? && !st.Colon? && !st.Slash? && !st.Reject? && !st.Elsewhere?
  {
    LedLengths(u);
    hide Led;
  }

  lemma PortCarved(u: Parts)
    ensures PortText(Text(u), AfterFragment(u).1) == Given(u.port)
  {
    Layout(u);
    FinalMarks(u);
    LedLengths(u);
    var s := Text(u);
    hide Text, AfterFragment;
    if u.port.Some? && u.port.value != "" {
      assert s[PortAt(u) + 1..PathAt(u)] == s[PortAt(u)..PathAt(u)][1..];
      assert NoTail(u) ==> PathAt(u) == |s|;
    }
  }

  lemma HostCarved(u: Parts)
    ensures var (s, m) := (Text(u), AfterFragment(u).1);
            Cut(s, HostAt(u), HostEnd(s, m)) == HostOf(u)
  {
    Layout(u);
    FinalMarks(u);
    LedLengths(u);
    var s := Text(u);
    hide Text, AfterFragment;
    if u.port == Some("") && NoTail(u) {
      assert s[HostAt(u)..] == s[HostAt(u)..PortAt(u)] + s[PortAt(u)..PathAt(u)];
    }
  }

  lemma PathCarved(u: Parts)
    ensures PathText(Text(u), AfterFragment(u).1) == PathOf(u)
  {
    Layout(u);
    FinalMarks(u);
    LedLengths(u);
    var s := Text(u);
    hide Text, AfterFragment;
    var a, b, c := PathAt(u), QueryAt(u), FragmentAt(u);
    if u.query == Some("") && u.fragment.None? {
      assert s[a..] == s[a..b] + s[b..c];
    } else if u.query.None? && u.fragment == Some("") {
      assert s[a..] == s[a..b] + s[b..];
    }
  }

  lemma QueryCarved(u: Parts)
    ensures QueryText(Text(u), AfterFragment(u).1) == QueryOf(u)
  {
    Layout(u);
    FinalMarks(u);
    LedLengths(u);
    var s := Text(u);
    hide Text, AfterFragment;
    if u.query.Some? {
      QuerySlice(u, s);
    }
  }

  lemma QuerySlice(u: Parts, s: string)
    requires u.query.Some? && FragmentAt(u) <= |s|
    requires s[QueryAt(u)..FragmentAt(u)] == Led("?", u.query) && s[FragmentAt(u)..] == Led("#", u.fragment)
    ensures QueryAt(u) + 1 <= FragmentAt(u)
    ensures s[QueryAt(u) + 1..FragmentAt(u)] == u.query.value
    ensures s[QueryAt(u) + 1..] == u.query.value + Led("#", u.fragment)
    ensures u.fragment == Some("") ==> Led("#", u.fragment) == "#"
  {
    var b, c := QueryAt(u), FragmentAt(u);
    assert s[b + 1..c] == s[b..c][1..];
    assert s[b + 1..] == s[b + 1..c] + s[c..];
  }

  lemma FragmentCarved(u: Parts)
    ensures FragmentText(Text(u), AfterFragment(u).1) == Given(u.fragment)
  {
    Layout(u);
    FinalMarks(u);
    LedLengths(u);
    var s := Text(u);
    hide Text, AfterFragment;
    if u.fragment.Some? && u.fragment.value != "" {
      assert s[FragmentAt(u) + 1..] == s[FragmentAt(u)..][1..];
    }
  }

  lemma SchemeFound(u: Parts)
    requires WellFormed(u)
    ensures HostAt(u) <= |Text(u)| && Text(u)[..Find(Text(u), 0, HostAt(u), ':')] == u.scheme
  {
    Layout(u);
    var s, n := Text(u), |u.scheme|;
    var i := Find(s, 0, HostAt(u), ':');
    assert s[n] == s[n..HostAt(u)][0] == ':';
    assert forall k :: 0 <= k < n ==> s[k] == s[..n][k] && SchemeChar(s[k]);
    assert i == n;
  }

  /** What each getter returns, for every well-formed text. */
  lemma ComponentsOfText(u: Parts)
    requires WellFormed(u)
    ensures Result(Text(u)) ==
            if Number(Given(u.port)) > INT_MAX then OutOfRange
            else Parsed(Url(u.scheme, "", HostOf(u), Number(Given(u.port)) % 0x1_0000,
                            PathOf(u), QueryOf(u), Given(u.fragment)))
  {
    RunOverText(u);
    FinalMarks(u);
    SchemeFound(u);
    PortCarved(u);
    HostCarved(u);
    PathCarved(u);
    QueryCarved(u);
    FragmentCarved(u);
    hide Run, Text, AfterFragment, WellFormed, Number, HostOf, PathOf, QueryOf, Given, Led, Find;
    NumberOfNothing();
  }

  /** The getters return the components just when no component is left empty after its delimiter at the
      end of another: then only an empty query before a fragment, or an empty port before a path, query
      or fragment, is allowed. */
  lemma GettersReturnParts(u: Parts)
    requires WellFormed(u) && Number(Given(u.port)) <= INT_MAX
    ensures Result(Text(u)) == Parsed(Url(u.scheme, "", u.name, Number(Given(u.port)) % 0x1_0000, u.path,
                                          Given(u.query), Given(u.fragment)))
            <==> u.fragment != Some("") && (u.query == Some("") ==> u.fragment.Some?)
                 && (u.port == Some("") ==> !NoTail(u))
  {
    ComponentsOfText(u);
    hide Result, Text, WellFormed, Number;
    assert |HostOf(u)| > |u.name| <==> u.port == Some("") && NoTail(u);
  }

  /** The text is printed back just when its port is canonical and no empty query stands before a fragment. */
  lemma TextPrintsBack(u: Parts)
    requires WellFormed(u) && Number(Given(u.port)) <= INT_MAX
    ensures Result(Text(u)).Parsed? && (Printed(Result(Text(u)).url) == Text(u)
            <==> (u.port.Some? ==> CanonicalPort(u.port.value) || (u.port.value == "" && NoTail(u)))
                 && !(u.query == Some("") && u.fragment.Some? && u.fragment.value != ""))
  {
    ComponentsOfText(u);
    RunOverText(u);
    FinalMarks(u);
    PortCarved(u);
    LedLengths(u);
    PrintsBack(Text(u));
    hide Result, Printed, Text, WellFormed, Number, AfterFragment, Run, PortText, Led;
  }

  /** A URL with a canonical port, and with a query and a fragment that are not empty when present, comes
      back from the parser as its components, and from the printer as it was. */
  lemma RoundTrip(u: Parts)
    requires WellFormed(u) && (u.port.Some? ==> CanonicalPort(u.port.value))
    requires u.query != Some("") && u.fragment != Some("")
    ensures Result(Text(u)) == Parsed(Url(u.scheme, "", u.name, Number(Given(u.port)), u.path,
                                          Given(u.query), Given(u.fragment)))
    ensures Printed(Result(Text(u)).url) == Text(u)
  {
    hide Result, Printed, Text, WellFormed, Number;
    NumberOfNothing();
    GettersReturnParts(u);
    TextPrintsBack(u);
  }
}
