/** The URL automaton for registered-name hosts, the carving of the text into components after it, and the
    printing of the result. */
module UrlParser {
  import opened Options
  import Percent
  import opened Search

  /** The automaton's states, with their numbers in the generated source. `Elsewhere` stands for its
      states for user information, escapes in the host, IP literals and UTF-8, which are not modelled. */
  datatype St =
    | Begin      // 1
    | Scheme     // 18
    | Colon      // 19
    | Slash      // 20
    | Authority  // 21
    | Name       // 23
    | NameColon  // 34
    | Port       // 219
    | Path       // 7
    | Percent    // 11
    | PercentHex // 12
    | Question   // 13
    | Query      // 15
    | Hash       // 2
    | Fragment   // 4
    | Nul        // 238
    | Reject     // 0
    | Elsewhere

  /** Where each component starts, as far as the automaton has noted it. */
  datatype Marks = Marks(scheme: Option<nat>, userinfo: Option<nat>, host: Option<nat>, port: Option<nat>,
                         path: Option<nat>, query: Option<nat>, fragment: Option<nat>)

  const UNMARKED := Marks(None, None, None, None, None, None, None)

  datatype Url = Url(scheme: string, userinfo: string, host: string, port: nat,
                     path: string, query: string, fragment: string)

  const EMPTY := Url("", "", "", 0, "", "", "")

  /** `NoUrl` is the null result, `OutOfRange` the exception of `std::stoi`. */
  datatype Outcome = Parsed(url: Url) | NoUrl | OutOfRange | NotModelled

  // ---- Characters ---------------------------------------------------------------------------

  predicate Between(c: char, lo: nat, hi: nat) {
    lo <= c as int <= hi
  }

  predicate Letter(c: char) {
    Between(c, 65, 90) || Between(c, 97, 122)
  }

  predicate Digit(c: char) {
    Between(c, 48, 57)
  }

  predicate SchemeChar(c: char) {
    Letter(c) || Digit(c) || c == '+' || c == '-' || c == '.'
  }

  predicate NameStart(c: char) {
    c == '!' || c == ';' || c == '=' || c == '_' || c == '~' || (Between(c, 36, 46) && c != '%') || Letter(c)
  }

  predicate NameChar(c: char) {
    c == '!' || c == '=' || c == '_' || c == '~' || Letter(c) || (Between(c, 36, 59) && c != '%' && c != '/' && c != ':')
  }

  predicate PathChar(c: char) {
    c == '!' || c == '=' || c == '_' || c == '~'
    || (Between(c, 36, 59) && c != '%') || Between(c, 64, 90) || Between(c, 97, 122)
  }

  predicate Printable(c: char) {
    Between(c, 32, 126)
  }

  /** The ranges of the generated automaton are the character classes of RFC 3986: schemes (section 3.1),
      registered names (section 3.2.2, escapes apart; a digit cannot start one here) and paths (section 3.3). */
  lemma CharacterClasses(c: char)
    ensures Letter(c) <==> 'A' <= c <= 'Z' || 'a' <= c <= 'z'
    ensures Digit(c) <==> '0' <= c <= '9'
    ensures SchemeChar(c) <==> Percent.Alnum(c) || c in "+-."
    ensures NameChar(c) <==> Percent.Unreserved(c) || c in "!$&'()*+,;="
    ensures NameStart(c) <==> NameChar(c) && !Digit(c)
    ensures PathChar(c) <==> Percent.PathChar(c)
    ensures Printable(c) <==> ' ' <= c <= '~'
  {
  }

  // ---- The automaton ------------------------------------------------------------------------

  /** The state and the marks after reading `c` at `p`. */
  function Next(st: St, m: Marks, c: char, p: nat): (St, Marks) {
    match st
    case Begin =>
      if c == '\0' then (Nul, m.(path := Some(p)))
      else if c == '#' then (Hash, m.(path := Some(p)))
      else if c == '/' then (Path, m.(path := Some(p)))
      else if c == '?' then (Question, m.(path := Some(p)))
      else if Letter(c) then (Scheme, m.(scheme := Some(p)))
      else (Reject, m)
    case Scheme => if SchemeChar(c) then (Scheme, m) else if c == ':' then (Colon, m) else (Reject, m)
    case Colon => if c == '/' then (Slash, m) else (Reject, m)
    case Slash => if c == '/' then (Authority, m) else (Reject, m)
    case Authority =>
      if c == '\0' then (Nul, m.(host := Some(p), path := Some(p)))
      else if c == '#' then (Hash, m.(host := Some(p), path := Some(p)))
      else if c == '/' then (Path, m.(host := Some(p), path := Some(p)))
      else if c == '?' then (Question, m.(host := Some(p), path := Some(p)))
      else if NameStart(c) then (Name, m.(userinfo := Some(p), host := Some(p)))
      else if c == ':' then (NameColon, m.(userinfo := Some(p), host := Some(p)))
      else if c == '%' || Digit(c) || c == '@' || c == '[' || c as int >= 128 then (Elsewhere, m)
      else (Reject, m)
    case Name =>
      if c == '\0' then (Nul, m.(path := Some(p)))
      else if c == '#' then (Hash, m.(path := Some(p)))
      else if c == '/' then (Path, m.(path := Some(p)))
      else if c == '?' then (Question, m.(path := Some(p)))
      else if c == ':' then (NameColon, m)
      else if NameChar(c) then (Name, m)
      else if c == '%' || c == '@' || c as int >= 128 then (Elsewhere, m)
      else (Reject, m)
    case NameColon =>
      if c == '\0' then (Nul, m.(port := Some(p), path := Some(p)))
      else if c == '#' then (Hash, m.(port := Some(p), path := Some(p)))
      else if c == '/' then (Path, m.(port := Some(p), path := Some(p)))
      else if c == '?' then (Question, m.(port := Some(p), path := Some(p)))
      else if Digit(c) then (Port, m.(port := Some(p)))
      else if NameChar(c) || c == ':' || c == '%' || c == '@' || c as int >= 128 then (Elsewhere, m)
      else (Reject, m)
    case Port =>
      if c == '\0' then (Nul, m.(path := Some(p)))
      else if c == '#' then (Hash, m.(path := Some(p)))
      else if c == '/' then (Path, m.(path := Some(p)))
      else if c == '?' then (Question, m.(path := Some(p)))
      else if Digit(c) then (Port, m)
      else if NameChar(c) || c == ':' || c == '%' || c == '@' || c as int >= 128 then (Elsewhere, m)
      else (Reject, m)
    case Path =>
      if c == '\0' then (Nul, m)
      else if c == '#' then (Hash, m)
      else if c == '%' then (Percent, m)
      else if c == '?' then (Question, m)
      else if PathChar(c) then (Path, m)
      else if c as int >= 128 then (Elsewhere, m)
      else (Reject, m)
    case Percent => if Percent.HexDigit(c) then (PercentHex, m) else (Reject, m)
    case PercentHex => if Percent.HexDigit(c) then (Path, m) else (Reject, m)
    case Question =>
      if c == '\0' then (Nul, m.(query := Some(p)))
      else if c == '#' then (Hash, m.(query := Some(p)))
      else if Printable(c) then (Query, m.(query := Some(p)))
      else if c as int >= 128 then (Elsewhere, m)
      else (Reject, m)
    case Query =>
      if c == '\0' then (Nul, m)
      else if c == '#' then (Hash, m)
      else if Printable(c) then (Query, m)
      else if c as int >= 128 then (Elsewhere, m)
      else (Reject, m)
    case Hash =>
      if c == '\0' then (Nul, m.(fragment := Some(p)))
      else if Printable(c) then (Fragment, m.(fragment := Some(p)))
      else if c as int >= 128 then (Elsewhere, m)
      else (Reject, m)
    case Fragment =>
      if c == '\0' then (Nul, m)
      else if Printable(c) then (Fragment, m)
      else if c as int >= 128 then (Elsewhere, m)
      else (Reject, m)
    case Nul => (Reject, m)
    case Reject => (Reject, m)
    case Elsewhere => (Elsewhere, m)
  }

  /** A character that may stand in an authority, user information and IP literals included. */
  predicate InAuthority(c: char) {
    Percent.Unreserved(c) || c in "!$&'()*+,;=" || c == ':' || c == '%' || c == '@' || c as int >= 128
  }

  predicate EndsAuthority(c: char) {
    c == '/' || c == '?' || c == '#' || c == '\0'
  }

  /** What is an error where: in an authority what may not stand there; in a path all but path characters, escapes
      and what ends the path; in queries and fragments the control characters. */
  lemma Errors(st: St, m: Marks, c: char, p: nat)
    ensures st.Name? || st.NameColon? || st.Port? ==>
              (Next(st, m, c, p).0 == Reject <==> !InAuthority(c) && !EndsAuthority(c))
    ensures st.Authority? ==> (Next(st, m, c, p).0 == Reject <==> !InAuthority(c) && !EndsAuthority(c) && c != '[')
    ensures st.Path? ==>
              (Next(st, m, c, p).0 == Reject <==> !(Percent.PathChar(c) || c in "%?#" || c == '\0' || c as int >= 128))
    ensures st.Question? || st.Query? || st.Hash? || st.Fragment? ==>
              (Next(st, m, c, p).0 == Reject <==> (c < ' ' && c != '\0') || c as int == 127)
    ensures st.Begin? ==> (Next(st, m, c, p).0 == Reject <==> !Letter(c) && !EndsAuthority(c))
    ensures st.Nul? ==> Next(st, m, c, p).0 == Reject
  {
    CharacterClasses(c);
  }

  /** The automaton over `s[p..]`. */
  function Run(s: string, p: nat, st: St, m: Marks): (St, Marks)
    requires p <= |s|
    decreases |s| - p
  {
    if p == |s| then (st, m) else var (next, marks) := Next(st, m, s[p], p); Run(s, p + 1, next, marks)
  }

  // ---- Carving ------------------------------------------------------------------------------

  function End(mark: Option<nat>, else_: nat): nat {
    if mark.Some? then mark.value else else_
  }

  /** One before the mark: the delimiter in front of the component does not belong to the previous one. */
  function Before(mark: Option<nat>, else_: nat): int {
    if mark.Some? then mark.value - 1 else else_
  }

  function Cut(s: string, from: nat, to: int): string {
    if from <= to <= |s| then s[from..to] else ""
  }

  function HostEnd(s: string, m: Marks): int {
    if m.port.Some? then m.port.value - 1 else End(m.path, |s|)
  }

  function PathEnd(s: string, m: Marks): int {
    if m.query.Some? then m.query.value - 1 else Before(m.fragment, |s|)
  }

  function PortText(s: string, m: Marks): string {
    if m.port.Some? then Cut(s, m.port.value, End(m.path, |s|)) else ""
  }

  function Number(digits: string): nat {
    if digits == "" then 0
    else 10 * Number(digits[..|digits| - 1]) +
         if Digit(digits[|digits| - 1]) then digits[|digits| - 1] as int - '0' as int else 0
  }

  const INT_MAX := 0x7FFF_FFFF

  /** The components that the marks delimit, as the code after the automaton sets them. */
  function Carved(s: string, m: Marks): Outcome {
    if m.port.Some? && Number(PortText(s, m)) > INT_MAX then OutOfRange else
      var end := End(m.host, |s|);
      var scheme := if m.scheme.Some? && m.scheme.value <= end <= |s|
                    then s[m.scheme.value..Find(s, m.scheme.value, end, ':')] else "";
      Parsed(Url(scheme,
                 if m.userinfo.Some? then Cut(s, m.userinfo.value, Before(m.host, |s|)) else "",
                 if m.host.Some? then Cut(s, m.host.value, HostEnd(s, m)) else "",
                 Number(PortText(s, m)) % 0x1_0000,
                 if m.path.Some? then Cut(s, m.path.value, PathEnd(s, m)) else "",
                 if m.query.Some? then Cut(s, m.query.value, Before(m.fragment, |s|)) else "",
                 if m.fragment.Some? then Cut(s, m.fragment.value, |s|) else ""))
  }

  /** What `CreateUrl` makes of `s`. Any state is accepting that is reached at the end of the text. */
  function Result(s: string): Outcome {
    var (st, m) := Run(s, 0, Begin, UNMARKED);
    if st == Elsewhere then NotModelled else if st == Reject then NoUrl else Carved(s, m)
  }

  // ---- Printing -----------------------------------------------------------------------------

  function Decimal(n: nat): (r: string)
    ensures r != ""
  {
    (if n < 10 then "" else Decimal(n / 10)) + [('0' as int + n % 10) as char]
  }

  /** A component with what goes around it, or nothing when it is empty. */
  function Around(before: string, part: string, after: string): string {
    if part == "" then "" else before + part + after
  }

  function PortPart(port: nat): string {
    if port > 0 then ":" + Decimal(port) else ""
  }

  /** What `getAsciiURL` returns. */
  function Printed(u: Url): string {
    Around("", u.scheme, "://") + Around("", u.userinfo, "@") + u.host + PortPart(u.port) + u.path
    + Around("?", u.query, "") + Around("#", u.fragment, "")
  }

  method Append(r: string, before: string, part: string, after: string) returns (t: string)
    ensures t == r + Around(before, part, after)
  {
    t := r;
    if part != "" {
      t := t + (before + part + after);
    }
  }

  /** `getAsciiURL` */
  method GetAsciiUrl(u: Url) returns (r: string)
    ensures r == Printed(u)
  {
    hide Around, Decimal;
    r := Append("", "", u.scheme, "://");
    assert r == Around("", u.scheme, "://");
    r := Append(r, "", u.userinfo, "@");
    r := r + u.host;
    if u.port > 0 {
      r := r + (":" + Decimal(u.port));
    } else {
      assert r + "" == r;
    }
    r := r + u.path;
    r := Append(r, "?", u.query, "");
    r := Append(r, "#", u.fragment, "");
  }

  /** The setters that run once the automaton has accepted. */
  method Carve(s: string, m: Marks) returns (r: Outcome)
    ensures r == Carved(s, m)
  {
    assert Number("") == 0;
    hide Number;
    var u := EMPTY;
    if m.scheme.Some? {
      var end := End(m.host, |s|);
      if m.scheme.value <= end <= |s| {
        u := u.(scheme := s[m.scheme.value..Find(s, m.scheme.value, end, ':')]);
      }
    }
    if m.userinfo.Some? {
      u := u.(userinfo := Cut(s, m.userinfo.value, Before(m.host, |s|)));
    }
    if m.host.Some? {
      u := u.(host := Cut(s, m.host.value, HostEnd(s, m)));
    }
    if m.port.Some? {
      var digits := PortText(s, m);
      if digits != "" {
        if Number(digits) > INT_MAX {
          return OutOfRange;
        }
        u := u.(port := Number(digits) % 0x1_0000);
      }
    }
    if m.path.Some? {
      u := u.(path := Cut(s, m.path.value, PathEnd(s, m)));
    }
    if m.query.Some? {
      u := u.(query := Cut(s, m.query.value, Before(m.fragment, |s|)));
    }
    if m.fragment.Some? {
      u := u.(fragment := Cut(s, m.fragment.value, |s|));
    }
    r := Parsed(u);
  }

  /** `CreateUrl` */
  method CreateUrl(s: string) returns (r: Outcome)
    ensures r == Result(s)
  {
    var st, m := Begin, UNMARKED;
    var p := 0;
    hide Next;
    while p < |s|
      invariant p <= |s|
      invariant Run(s, 0, Begin, UNMARKED) == Run(s, p, st, m)
    {
      if st == Reject || st == Elsewhere {
        break;
      }
      var next := Next(st, m, s[p], p);
      st, m := next.0, next.1;
      p := p + 1;
    }
    Halted(s, p, st, m);
    if st == Elsewhere {
      return NotModelled;
    }
    if st == Reject {
      return NoUrl;
    }
    r := Carve(s, m);
  }

  lemma {:induction false} Halted(s: string, p: nat, st: St, m: Marks)
    requires p <= |s| && (p == |s| || st == Reject || st == Elsewhere)
    ensures Run(s, p, st, m) == (st, m)
    decreases |s| - p
  {
    if p < |s| {
      Halted(s, p + 1, st, m);
    }
  }
}
