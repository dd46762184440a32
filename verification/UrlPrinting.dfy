/** For every text the automaton accepts: when printing the carved components gives the text back. */
module UrlPrinting {
  import opened Options
  import opened Search
  import opened UrlParser

  // ---- Port numbers -------------------------------------------------------------------------

  predicate Digits(d: string) {
    forall k :: 0 <= k < |d| ==> Digit(d[k])
  }

  /** A port that `std::to_string` gives back: no leading zero, in 1..65535. */
  predicate CanonicalPort(d: string) {
    d != "" && d[0] != '0' && Number(d) <= 0xFFFF
  }

  lemma {:induction false} NumberOfDecimal(n: nat)
    ensures Number(Decimal(n)) == n
    ensures n > 0 ==> Decimal(n)[0] != '0'
  {
    hide Number, Decimal;
    var k := n % 10;
    var c := ('0' as int + k) as char;
    DecimalStep(n / 10, k);
    if n < 10 {
      assert Decimal(n) == [c];
      NumberAppend("", c);
    } else {
      NumberOfDecimal(n / 10);
      NumberAppend(Decimal(n / 10), c);
    }
  }

  lemma NumberAppend(d: string, c: char)
    requires Digit(c)
    ensures Number(d + [c]) == 10 * Number(d) + c as int - '0' as int && Number("") == 0
  {
    assert (d + [c])[..|d|] == d;
  }

  lemma {:induction false} DecimalOfNumber(d: string)
    requires Digits(d) && d != "" && d[0] != '0'
    ensures Decimal(Number(d)) == d && Number(d) > 0
  {
    hide Number, Decimal;
    var front, last := d[..|d| - 1], d[|d| - 1];
    NumberStep(d);
    DecimalStep(Number(front), last as int - '0' as int);
    assert d == front + [last];
    if front != "" {
      DecimalOfNumber(front);
    }
  }

  lemma DecimalStep(m: nat, k: nat)
    requires k < 10
    ensures Decimal(10 * m + k) == (if m == 0 then "" else Decimal(m)) + [('0' as int + k) as char]
  {
  }

  lemma NumberStep(d: string)
    requires Digits(d) && d != ""
    ensures var k := d[|d| - 1] as int - '0' as int;
            0 <= k < 10 && Number(d) == 10 * Number(d[..|d| - 1]) + k && Number("") == 0
  {
  }

  lemma {:induction false} DecimalNoLonger(d: string)
    requires Digits(d) && d != ""
    ensures |Decimal(Number(d))| <= |d|
  {
    NumberStep(d);
    if |d| > 1 {
      DecimalNoLonger(d[..|d| - 1]);
    }
  }

  lemma {:induction false} DecimalShorter(m: nat, n: nat)
    requires m <= n
    ensures |Decimal(m)| <= |Decimal(n)|
  {
    if m >= 10 {
      DecimalShorter(m / 10, n / 10);
    }
  }

  /** The port is printed as it was written just when it is canonical, and never longer. */
  lemma PortPrintsBack(d: string)
    requires Digits(d)
    ensures PortPart(Number(d) % 0x1_0000) == ":" + d <==> CanonicalPort(d)
    ensures |PortPart(Number(d) % 0x1_0000)| <= 1 + |d|
  {
    hide Number, Decimal;
    var k := Number(d) % 0x1_0000;
    if PortPart(k) == ":" + d {
      assert Decimal(k) == PortPart(k)[1..] == d;
      NumberOfDecimal(k);
    }
    if CanonicalPort(d) {
      DecimalOfNumber(d);
    }
    if d == "" {
      NumberOfNothing();
    } else {
      DecimalNoLonger(d);
      DecimalShorter(k, Number(d));
    }
  }

  lemma NumberOfNothing()
    ensures Number("") == 0
  {
  }

  // ---- What holds wherever the automaton stands ---------------------------------------------

  predicate NoColon(s: string, n: nat) {
    n <= |s| && forall k :: 0 <= k < n ==> s[k] != ':'
  }

  /** The scheme and the three characters after it. */
  predicate Schemed(s: string, h: nat) {
    4 <= h <= |s| && NoColon(s, h - 3) && s[h - 3] == ':' && s[h - 2] == '/' && s[h - 1] == '/'
  }

  predicate Front(s: string, p: nat, m: Marks)
    requires p <= |s|
  {
    if m.host.None? then
      m.scheme.None? && m.userinfo.None? && m.port.None?
    else
      && var h := m.host.value;
      && h <= p && Schemed(s, h) && m.scheme == Some(0) && (m.userinfo.None? || m.userinfo == m.host)
      && (m.port.Some? ==> h < m.port.value <= p && s[m.port.value - 1] == ':')
  }

  predicate Back(s: string, p: nat, m: Marks)
    requires p <= |s|
  {
    && m.path.Some? && m.path.value < p
    && var a := m.path.value;
    && (if m.host.None? then a == 0 else m.host.value <= a)
    && (m.port.Some? ==> m.port.value <= a && Digits(s[m.port.value..a]))
    && (m.query.Some? ==> a < m.query.value < p && s[m.query.value - 1] == '?')
    && (m.fragment.Some? ==> a < m.fragment.value < p && s[m.fragment.value - 1] == '#')
    && (m.query.Some? && m.fragment.Some? ==> m.query.value < m.fragment.value)
  }

  predicate Bare(m: Marks) {
    m.path.None? && m.query.None? && m.fragment.None?
  }

  predicate Shape(s: string, p: nat, st: St, m: Marks)
    requires p <= |s|
  {
    match st
    case Begin => p == 0 && m == UNMARKED
    case Scheme => 1 <= p && NoColon(s, p) && m == UNMARKED.(scheme := Some(0))
    case Colon => 2 <= p && NoColon(s, p - 1) && s[p - 1] == ':' && m == UNMARKED.(scheme := Some(0))
    case Slash => 3 <= p && NoColon(s, p - 2) && s[p - 2] == ':' && s[p - 1] == '/' && m == UNMARKED.(scheme := Some(0))
    case Authority => Schemed(s, p) && m == UNMARKED.(scheme := Some(0))
    case Name => Front(s, p, m) && Bare(m) && m.host.Some? && m.port.None?
    case NameColon => Front(s, p, m) && Bare(m) && m.host.Some? && m.port.None? && m.host.value < p && s[p - 1] == ':'
    case Port => Front(s, p, m) && Bare(m) && m.host.Some? && m.port.Some? && Digits(s[m.port.value..p])
    case Path => Front(s, p, m) && Back(s, p, m) && m.query.None? && m.fragment.None?
    case Percent => Front(s, p, m) && Back(s, p, m) && m.query.None? && m.fragment.None?
    case PercentHex => Front(s, p, m) && Back(s, p, m) && m.query.None? && m.fragment.None?
    case Question => Front(s, p, m) && Back(s, p, m) && m.query.None? && m.fragment.None? && s[p - 1] == '?'
    case Query => Front(s, p, m) && Back(s, p, m) && m.query.Some? && m.fragment.None?
    case Hash => Front(s, p, m) && Back(s, p, m) && m.fragment.None? && s[p - 1] == '#'
    case Fragment => Front(s, p, m) && Back(s, p, m) && m.fragment.Some?
    case Nul => Front(s, p, m) && Back(s, p, m)
    case Reject => true
    case Elsewhere => true
  }

  lemma Grows(s: string, p: nat, m: Marks)
    requires p < |s| && Front(s, p, m)
    ensures Front(s, p + 1, m) && (Back(s, p, m) ==> Back(s, p + 1, m))
  {
  }

  lemma PathStarts(s: string, p: nat, m: Marks)
    requires p < |s| && Front(s, p, m) && Bare(m) && (m.host.None? ==> p == 0)
    requires m.port.Some? ==> Digits(s[m.port.value..p])
    ensures var n := m.(path := Some(p)); Front(s, p + 1, n) && Back(s, p + 1, n)
  {
  }

  lemma ShapeNextFront(s: string, p: nat, st: St, m: Marks)
    requires p < |s| && Shape(s, p, st, m)
    requires st.Begin? || st.Scheme? || st.Colon? || st.Slash?
    ensures var (next, marks) := Next(st, m, s[p], p); Shape(s, p + 1, next, marks)
  {
  }

  lemma ShapeNextAuthority(s: string, p: nat, m: Marks)
    requires p < |s| && Shape(s, p, Authority, m)
    ensures var (next, marks) := Next(Authority, m, s[p], p); Shape(s, p + 1, next, marks)
  {
    PathStarts(s, p, m.(host := Some(p)));
    hide NoColon;
  }

  lemma ShapeNextName(s: string, p: nat, st: St, m: Marks)
    requires p < |s| && Shape(s, p, st, m) && (st.Name? || st.Port?)
    ensures var (next, marks) := Next(st, m, s[p], p); Shape(s, p + 1, next, marks)
  {
    if st.Port? {
      assert s[m.port.value..p + 1] == s[m.port.value..p] + [s[p]];
    }
    Grows(s, p, m);
    PathStarts(s, p, m);
    hide Front, Back;
  }

  lemma ShapeNextColon(s: string, p: nat, m: Marks)
    requires p < |s| && Shape(s, p, NameColon, m)
    ensures var (next, marks) := Next(NameColon, m, s[p], p); Shape(s, p + 1, next, marks)
  {
    var n := m.(port := Some(p));
    Grows(s, p, n);
    PathStarts(s, p, n);
    assert s[p..p + 1] == [s[p]];
    hide Front, Back;
  }

  lemma QueryStarts(s: string, p: nat, m: Marks)
    requires p < |s| && Front(s, p, m) && Back(s, p, m) && s[p - 1] == '?' && m.query.None? && m.fragment.None?
    ensures var n := m.(query := Some(p)); Front(s, p + 1, n) && Back(s, p + 1, n)
  {
  }

  lemma FragmentStarts(s: string, p: nat, m: Marks)
    requires p < |s| && Front(s, p, m) && Back(s, p, m) && s[p - 1] == '#' && m.fragment.None?
    ensures var n := m.(fragment := Some(p)); Front(s, p + 1, n) && Back(s, p + 1, n)
  {
  }

  lemma ShapeNextBack(s: string, p: nat, st: St, m: Marks)
    requires p < |s| && Shape(s, p, st, m)
    requires st.Path? || st.Percent? || st.PercentHex? || st.Question? || st.Query? || st.Hash? || st.Fragment?
    ensures var (next, marks) := Next(st, m, s[p], p); Shape(s, p + 1, next, marks)
  {
    Grows(s, p, m);
    if st.Question? {
      QueryStarts(s, p, m);
    }
    if st.Hash? {
      FragmentStarts(s, p, m);
    }
    hide Front, Back;
  }

  lemma ShapeNext(s: string, p: nat, st: St, m: Marks)
    requires p < |s| && Shape(s, p, st, m)
    ensures var (next, marks) := Next(st, m, s[p], p); Shape(s, p + 1, next, marks)
  {
    hide Shape;
    match st
    case Begin => ShapeNextFront(s, p, st, m);
    case Scheme => ShapeNextFront(s, p, st, m);
    case Colon => ShapeNextFront(s, p, st, m);
    case Slash => ShapeNextFront(s, p, st, m);
    case Authority => ShapeNextAuthority(s, p, m);
    case Name => ShapeNextName(s, p, st, m);
    case Port => ShapeNextName(s, p, st, m);
    case NameColon => ShapeNextColon(s, p, m);
    case Nul => StopShape(s, p, Reject, m);
    case Reject => StopShape(s, p, Reject, m);
    case Elsewhere => StopShape(s, p, Elsewhere, m);
    case _ => ShapeNextBack(s, p, st, m);
  }

  lemma StopShape(s: string, p: nat, st: St, m: Marks)
    requires p < |s| && (st.Reject? || st.Elsewhere?)
    ensures Shape(s, p + 1, st, m)
  {
  }

  /** Wherever the automaton ends, its marks delimit the text: the scheme ends at the first colon, every
      mark but the path's comes right after its delimiter, and they come in order. */
  lemma {:induction false} ShapeRun(s: string, p: nat, st: St, m: Marks)
    requires p <= |s| && Shape(s, p, st, m)
    ensures var (last, marks) := Run(s, p, st, m); Shape(s, |s|, last, marks)
    decreases |s| - p
  {
    hide Shape, Next;
    if p < |s| {
      ShapeNext(s, p, st, m);
      var (next, marks) := Next(st, m, s[p], p);
      ShapeRun(s, p + 1, next, marks);
    }
  }

  // ---- Prefixes -----------------------------------------------------------------------------

  /** Errors are final. */
  lemma {:induction false} Stuck(s: string, p: nat, st: St, m: Marks)
    requires p <= |s|
    ensures st == Reject ==> Run(s, p, st, m).0 == Reject
    ensures st == Elsewhere ==> Run(s, p, st, m).0 == Elsewhere
    decreases |s| - p
  {
    if p < |s| {
      Stuck(s, p + 1, st, m);
    }
  }

  lemma {:induction false} NumberGrows(d: string, n: nat)
    requires Digits(d) && n <= |d|
    ensures Number(d[..n]) <= Number(d)
  {
    if n < |d| {
      NumberStep(d);
      NumberGrows(d[..|d| - 1], n);
      assert d[..|d| - 1][..n] == d[..n];
    } else {
      assert d[..n] == d;
    }
  }

  /** A prefix leads the automaton where it stands in the middle of the text. */
  lemma {:induction false} RunSplits(s: string, n: nat, p: nat, st: St, m: Marks)
    requires p <= n <= |s| && Shape(s, p, st, m)
    ensures var (mid, marks) := Run(s[..n], p, st, m);
            Shape(s, n, mid, marks) && Run(s, p, st, m) == Run(s, n, mid, marks)
    decreases n - p
  {
    hide Shape, Next;
    if p < n {
      ShapeNext(s, p, st, m);
      var (next, marks) := Next(st, m, s[p], p);
      RunSplits(s, n, p + 1, next, marks);
    }
  }

  /** Once there is a port, its mark stays, and so does that of the path; the path starts no earlier than where
      the automaton stands, if it has not started. */
  lemma {:induction false} PortStays(s: string, p: nat, st: St, m: Marks)
    requires p <= |s| && Shape(s, p, st, m) && m.port.Some?
    ensures var marks := Run(s, p, st, m).1;
            && marks.port == m.port
            && (if m.path.Some? then marks.path == m.path else marks.path.Some? ==> marks.path.value >= p)
    decreases |s| - p
  {
    hide Front, Back;
    if p < |s| && st != Reject && st != Elsewhere {
      ShapeNext(s, p, st, m);
      var (next, marks) := Next(st, m, s[p], p);
      PortStays(s, p + 1, next, marks);
    } else if p < |s| {
      MarksStay(s, p, st, m);
    }
  }

  lemma {:induction false} MarksStay(s: string, p: nat, st: St, m: Marks)
    requires p <= |s| && (st == Reject || st == Elsewhere)
    ensures Run(s, p, st, m).1 == m
    decreases |s| - p
  {
    if p < |s| {
      MarksStay(s, p + 1, st, m);
    }
  }

  /** The digits of a prefix's port are the first ones of the whole port. */
  lemma PortOfPrefix(s: string, n: nat, marks: Marks, mid: St, m: Marks, st: St)
    requires n <= |s| && Shape(s, n, mid, marks) && Shape(s, |s|, st, m) && marks.port.Some? && m.port == marks.port
    requires if marks.path.Some? then m.path == marks.path else m.path.Some? ==> m.path.value >= n
    requires mid != Reject && mid != Elsewhere && st != Reject && st != Elsewhere
    ensures Number(PortText(s[..n], marks)) <= Number(PortText(s, m))
  {
    hide Number;
    var a, e := m.port.value, End(m.path, |s|);
    var d := s[a..e];
    assert Digits(d) && PortText(s, m) == d;
    var k := End(marks.path, n);
    assert a <= k <= e && PortText(s[..n], marks) == s[a..k] == d[..k - a];
    NumberGrows(d, k - a);
  }

  /** Any prefix of a URL is a URL: the only errors are characters that do not fit. */
  lemma PrefixParses(s: string, n: nat)
    requires n <= |s| && Result(s).Parsed?
    ensures Result(s[..n]).Parsed?
  {
    var (mid, marks) := Run(s[..n], 0, Begin, UNMARKED);
    var (st, m) := Run(s, 0, Begin, UNMARKED);
    StartShape(s);
    ShapeRun(s, 0, Begin, UNMARKED);
    RunSplits(s, n, 0, Begin, UNMARKED);
    Stuck(s, n, mid, marks);
    if marks.port.Some? {
      PortStays(s, n, mid, marks);
      PortOfPrefix(s, n, marks, mid, m, st);
    }
    hide Run, Shape, Number, PortText;
  }

  // ---- Printing what was carved -------------------------------------------------------------

  /** Two texts that differ only in parts that one of them shortens are equal just when no part is shortened. */
  lemma PiecesEqual(a: string, p: string, p2: string, b: string, q: string, q2: string, f: string)
    requires |p2| <= |p| && |q2| <= |q|
    ensures a + p2 + b + q2 + f == a + p + b + q + f <==> p2 == p && q2 == q
  {
    var x, y := a + p2 + b + q2 + f, a + p + b + q + f;
    if x == y {
      assert |p2| == |p| && |q2| == |q|;
      assert p2 == x[|a|..|a| + |p|] && p == y[|a|..|a| + |p|];
      var i := |a| + |p| + |b|;
      assert q2 == x[i..i + |q|] && q == y[i..i + |q|];
    }
  }

  /** The marks delimit the whole of `s`. */
  predicate Closed(s: string, m: Marks) {
    && Front(s, |s|, m)
    && (Back(s, |s|, m) || (Bare(m) && m.host.Some? && (m.port.Some? ==> Digits(s[m.port.value..]))))
  }

  /** What stands between the host and the port, with its colon. */
  function PortPiece(s: string, m: Marks): string {
    if m.port.Some? then ":" + PortText(s, m) else ""
  }

  function QueryText(s: string, m: Marks): string {
    if m.query.Some? then Cut(s, m.query.value, Before(m.fragment, |s|)) else ""
  }

  function QueryPiece(s: string, m: Marks): string {
    if m.query.Some? then "?" + QueryText(s, m) else ""
  }

  function FragmentText(s: string, m: Marks): string {
    if m.fragment.Some? then Cut(s, m.fragment.value, |s|) else ""
  }

  function HostText(s: string, m: Marks): string {
    if m.host.Some? then s[..Least(m.host.value, |s|)] + Cut(s, m.host.value, HostEnd(s, m)) else ""
  }

  function Least(a: nat, b: nat): nat {
    if a <= b then a else b
  }

  function PathText(s: string, m: Marks): string {
    if m.path.Some? then Cut(s, m.path.value, PathEnd(s, m)) else ""
  }

  lemma HeadAndPort(s: string, m: Marks)
    requires Closed(s, m)
    ensures var a := End(m.path, |s|); a <= |s| && HostText(s, m) + PortPiece(s, m) == s[..a]
    ensures Digits(PortText(s, m))
  {
    if m.port.Some? {
      var q := m.port.value;
      assert s[..q - 1] + ([s[q - 1]] + s[q..End(m.path, |s|)]) == s[..End(m.path, |s|)];
    }
  }

  lemma Peel(s: string, e: nat, g: nat)
    requires e < g <= |s|
    ensures s[e..g] == [s[e]] + s[e + 1..g]
    ensures g == |s| ==> s[e..] == [s[e]] + s[e + 1..]
  {
  }

  lemma FragmentIs(s: string, m: Marks)
    requires Closed(s, m) && m.path.Some?
    ensures var g := Before(m.fragment, |s|); 0 <= g <= |s| && Around("#", FragmentText(s, m), "") == s[g..]
  {
    if m.fragment.Some? {
      var g := m.fragment.value;
      Peel(s, g - 1, |s|);
      assert "#" + s[g..] + "" == "#" + s[g..];
    }
  }

  lemma QueryIs(s: string, m: Marks)
    requires Closed(s, m) && m.path.Some?
    ensures var e, g := PathEnd(s, m), Before(m.fragment, |s|); 0 <= e <= g <= |s| && QueryPiece(s, m) == s[e..g]
  {
    if m.query.Some? {
      var e, g := m.query.value, Before(m.fragment, |s|);
      Peel(s, e - 1, g);
    }
  }

  lemma PathIs(s: string, m: Marks)
    requires Closed(s, m) && m.path.Some?
    ensures var a, e := m.path.value, PathEnd(s, m); a <= e <= |s| && PathText(s, m) == s[a..e]
  {
  }

  lemma TailPieces(s: string, m: Marks)
    requires Closed(s, m)
    ensures var a := End(m.path, |s|);
            a <= |s| && PathText(s, m) + QueryPiece(s, m) + Around("#", FragmentText(s, m), "") == s[a..]
  {
    if m.path.Some? {
      PathIs(s, m);
      QueryIs(s, m);
      FragmentIs(s, m);
      Joined(s, m.path.value, PathEnd(s, m), Before(m.fragment, |s|));
    }
    hide PathText, QueryText, FragmentText, PathEnd, Before, Around;
  }

  lemma Joined(s: string, a: nat, e: nat, g: nat)
    requires a <= e <= g <= |s|
    ensures s[a..e] + s[e..g] + s[g..] == s[a..]
  {
  }

  /** The pieces, each with its delimiter, make up the text. */
  lemma PiecesMakeText(s: string, m: Marks)
    requires Closed(s, m)
    ensures s == HostText(s, m) + PortPiece(s, m) + PathText(s, m) + QueryPiece(s, m) + Around("#", FragmentText(s, m), "")
  {
    hide Closed, HostText, PortPiece, PathText, QueryPiece, Around, FragmentText;
    HeadAndPort(s, m);
    TailPieces(s, m);
    var a := End(m.path, |s|);
    assert s == s[..a] + s[a..];
  }

  lemma SchemeCarved(s: string, h: nat)
    requires Schemed(s, h)
    ensures Around("", s[..Find(s, 0, h, ':')], "://") == s[..h]
  {
    var i := Find(s, 0, h, ':');
    assert i == h - 3;
    assert s[..h] == s[..i] + "://";
    assert "" + s[..i] + "://" == s[..i] + "://";
  }

  /** Scheme and host print as they stand. */
  lemma HeadPrints(s: string, m: Marks)
    requires Closed(s, m) && Carved(s, m).Parsed?
    ensures var u := Carved(s, m).url; Around("", u.scheme, "://") + Around("", u.userinfo, "@") + u.host == HostText(s, m)
  {
    hide Number, Find, NoColon, Digits, Back;
    if m.host.Some? {
      SchemeCarved(s, m.host.value);
      assert s[..m.host.value] + "" == s[..m.host.value];
    }
  }

  /** What an accepted text must satisfy to be printed back: the scheme is followed by `//`, the port has no
      leading zero and lies in 1..65535, and an empty query is not followed by a fragment. */
  predicate Faithful(s: string, st: St, m: Marks) {
    && !st.Scheme? && !st.Colon? && !st.Slash?
    && (m.port.Some? ==> CanonicalPort(PortText(s, m)))
    && !(m.query.Some? && m.fragment.Some? && m.query.value + 1 == m.fragment.value)
  }

  lemma QueryPrints(s: string, m: Marks)
    requires Closed(s, m)
    ensures |Around("?", QueryText(s, m), "")| <= |QueryPiece(s, m)|
    ensures Around("?", QueryText(s, m), "") == QueryPiece(s, m)
            <==> !(m.query.Some? && m.fragment.Some? && m.query.value + 1 == m.fragment.value)
  {
    var t := QueryText(s, m);
    assert "?" + t + "" == "?" + t;
  }

  lemma ClosedPrintsBack(s: string, st: St, m: Marks)
    requires Closed(s, m) && Carved(s, m).Parsed? && !st.Scheme? && !st.Colon? && !st.Slash?
    ensures Printed(Carved(s, m).url) == s <==> Faithful(s, st, m)
  {
    var u := Carved(s, m).url;
    HeadAndPort(s, m);
    HeadPrints(s, m);
    PiecesMakeText(s, m);
    QueryPrints(s, m);
    PortPrintsBack(PortText(s, m));
    PortOfUrl(s, m);
    hide Closed, HostText, PathText, QueryText, FragmentText, PortText, Around, Carved, Number, PortPart, CanonicalPort;
    PiecesEqual(HostText(s, m), PortPiece(s, m), PortPart(u.port), PathText(s, m),
                QueryPiece(s, m), Around("?", QueryText(s, m), ""), Around("#", FragmentText(s, m), ""));
  }

  lemma PortOfUrl(s: string, m: Marks)
    requires Carved(s, m).Parsed?
    ensures var u := Carved(s, m).url;
            && u.port == Number(PortText(s, m)) % 0x1_0000 && u.path == PathText(s, m)
            && u.query == QueryText(s, m) && u.fragment == FragmentText(s, m)
            && (m.port.None? ==> PortPart(u.port) == "")
  {
    NumberOfNothing();
  }

  /** A text that ends within `scheme://` is accepted; it prints with the missing characters added. */
  lemma SchemeOnly(s: string, st: St, m: Marks)
    requires Shape(s, |s|, st, m) && (st.Scheme? || st.Colon? || st.Slash? || st.Authority?)
    ensures Carved(s, m).Parsed?
    ensures Printed(Carved(s, m).url) == s <==> st.Authority?
  {
    NumberOfNothing();
    var i := Find(s, 0, |s|, ':');
    var u := Carved(s, m).url;
    assert u.scheme == s[..i] && i >= 1;
    assert Printed(u) == s[..i] + "://" by {
      assert "" + s[..i] + "://" + "" + "" + "" + "" + "" + "" == s[..i] + "://";
    }
    if st.Authority? {
      assert s[..i] + "://" == s;
    }
  }

  lemma StartShape(s: string)
    ensures Shape(s, 0, Begin, UNMARKED)
  {
  }

  lemma AnyStart(s: string, st: St, m: Marks)
    requires Shape(s, |s|, st, m)
    ensures st.Begin? ==> s == "" && m == UNMARKED
    ensures st.Reject? || st.Elsewhere? || st.Scheme? || st.Colon? || st.Slash? || st.Authority? || st.Begin? || Closed(s, m)
    ensures st.Begin? || st.Scheme? || st.Colon? || st.Slash? || st.Authority? ==>
              m.port.None? && m.query.None? && (Faithful(s, st, m) <==> st.Begin? || st.Authority?)
  {
    if st.Port? {
      assert s[m.port.value..|s|] == s[m.port.value..];
    }
  }

  /** Every text that the automaton accepts, whatever state it ends in, is printed back just when it is
      faithful; in particular a trailing `?` or `#` is not lost, because it stays in the component before it. */
  lemma PrintsBack(s: string)
    requires Result(s).Parsed?
    ensures var (st, m) := Run(s, 0, Begin, UNMARKED); Printed(Result(s).url) == s <==> Faithful(s, st, m)
  {
    var (st, m) := Run(s, 0, Begin, UNMARKED);
    StartShape(s);
    ShapeRun(s, 0, Begin, UNMARKED);
    hide Run, Carved, Printed, Shape, Closed, Faithful;
    AnyStart(s, st, m);
    if st.Scheme? || st.Colon? || st.Slash? || st.Authority? {
      SchemeOnly(s, st, m);
    } else if st.Begin? {
      NothingPrints(s, m);
    } else {
      ClosedPrintsBack(s, st, m);
    }
  }

  lemma NothingPrints(s: string, m: Marks)
    requires s == "" && m == UNMARKED && Carved(s, m).Parsed?
    ensures Printed(Carved(s, m).url) == ""
  {
    NumberOfNothing();
  }
}
