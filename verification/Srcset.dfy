/** The rewriting of `srcset` attributes: comma-separated candidates, each a URL and a descriptor. */
module Srcset {
  import opened Options
  import opened Rewriter
  import opened Search

  predicate Blank(c: char) {
    c == ' ' || c == '\t'
  }

  predicate NotBlank(c: char) {
    !Blank(c)
  }

  predicate IsComma(c: char) {
    c == ','
  }

  predicate EndsUrl(c: char) {
    Blank(c) || IsComma(c)
  }

  /** The first place from `p` on where `stop` holds, or the end. */
  function Until(s: string, p: nat, stop: char -> bool): (i: nat)
    requires p <= |s|
    ensures p <= i <= |s| && (forall k :: p <= k < i ==> !stop(s[k])) && (i < |s| ==> stop(s[i]))
    decreases |s| - p
  {
    if p == |s| || stop(s[p]) then p else Until(s, p + 1, stop)
  }

  /** One candidate: leading blanks, the URL, and the rest; only the URL is rewritten. */
  function Candidate(c: string, f: string -> string): string {
    var b := Until(c, 0, NotBlank);
    var t := Until(c, b, EndsUrl);
    c[..b] + (if t > b then f(c[b..t]) else "") + c[t..]
  }

  /** The candidates of a list, each rewritten on its own. */
  function Rewrite(s: string, f: string -> string): string
    decreases |s|
  {
    var e := Find(s, 0, |s|, ',');
    Candidate(s[..e], f) + if e < |s| then "," + Rewrite(s[e + 1..], f) else ""
  }

  function RewriteFrom(s: string, p: nat, f: string -> string): string {
    if p < |s| then Rewrite(s[p..], f) else ""
  }

  // ---- The loops ----------------------------------------------------------------------------

  lemma UntilShift(s: string, a: nat, e: nat, p: nat, stop: char -> bool)
    requires a <= p <= e <= |s| && (e < |s| ==> stop(s[e]))
    requires forall k :: p <= k < e ==> s[k] != ','
    ensures Until(s, p, stop) <= e && Until(s[a..e], p - a, stop) + a == Until(s, p, stop)
  {
    var c := s[a..e];
    var i, j := Until(s, p, stop), Until(c, p - a, stop);
    assert forall k :: a <= k < e ==> c[k - a] == s[k];
    if i < e {
      assert stop(c[i - a]);
    }
    if j < |c| {
      assert stop(s[j + a]);
    }
  }

  /** One pass of the outer loop deals with one candidate and its comma. */
  lemma PassStep(s: string, p: nat, f: string -> string)
    requires p < |s|
    ensures var b := Until(s, p, NotBlank);
            var t := Until(s, b, EndsUrl);
            var e := Until(s, t, IsComma);
            RewriteFrom(s, p, f) == s[p..b] + (if t > b then f(s[b..t]) else "") + s[t..e]
                                    + (if e < |s| then "," else "") + RewriteFrom(s, e + 1, f)
  {
    hide Until, Rewrite, Candidate, Find;
    var b := Until(s, p, NotBlank);
    var t := Until(s, b, EndsUrl);
    var e := Until(s, t, IsComma);
    NoComma(s, p);
    FindComma(s, p, e);
    assert RewriteFrom(s, p, f) == Rewrite(s[p..], f);
    UntilShift(s, p, e, p, NotBlank);
    UntilShift(s, p, e, b, EndsUrl);
    CandidateAt(s, p, b, t, e, f);
    Unfold(s[p..], e - p, f);
    Pieces(s, p, e);
    EmptyRewrite(f);
    AddComma(s[p..b] + (if t > b then f(s[b..t]) else "") + s[t..e], RewriteFrom(s, e + 1, f));
  }

  lemma AddComma(x: string, rest: string)
    ensures x + "," + rest == x + ("," + rest) && x + "" + "" == x + "" == x
  {
  }

  lemma Unfold(s: string, e: nat, f: string -> string)
    requires e == Find(s, 0, |s|, ',')
    ensures Rewrite(s, f) == Candidate(s[..e], f) + if e < |s| then "," + Rewrite(s[e + 1..], f) else ""
  {
    hide Candidate, Find;
  }

  lemma Pieces(s: string, p: nat, e: nat)
    requires p <= e <= |s|
    ensures s[p..][..e - p] == s[p..e] && (e < |s| ==> s[p..][e - p + 1..] == s[e + 1..])
  {
  }

  lemma FindComma(s: string, p: nat, e: nat)
    requires p <= e <= |s| && (e < |s| ==> s[e] == ',') && forall k :: p <= k < e ==> s[k] != ','
    ensures Find(s[p..], 0, |s[p..]|, ',') == e - p
  {
    var rest := s[p..];
    var g := Find(rest, 0, |rest|, ',');
    assert forall k :: 0 <= k < |rest| ==> rest[k] == s[p + k];
    if e < |s| {
      assert rest[e - p] == ',';
    }
    if g < |rest| {
      assert s[p + g] == ',';
    }
  }

  lemma EmptyRewrite(f: string -> string)
    ensures Rewrite("", f) == "" && RewriteFrom("", 0, f) == ""
  {
  }

  lemma CandidateAt(s: string, p: nat, b: nat, t: nat, e: nat, f: string -> string)
    requires p <= b <= t <= e <= |s|
    requires b - p == Until(s[p..e], 0, NotBlank) && t - p == Until(s[p..e], b - p, EndsUrl)
    ensures Candidate(s[p..e], f) == s[p..b] + (if t > b then f(s[b..t]) else "") + s[t..e]
  {
    hide Until;
    Inner(s, p, e, p, b);
    Inner(s, p, e, b, t);
    Inner(s, p, e, t, e);
  }

  lemma Inner(s: string, p: nat, e: nat, i: nat, j: nat)
    requires p <= i <= j <= e <= |s|
    ensures s[p..e][i - p..j - p] == s[i..j]
    ensures i == p ==> s[p..e][..j - p] == s[i..j]
    ensures j == e ==> s[p..e][i - p..] == s[i..j]
  {
    var c := s[p..e];
    assert forall k :: 0 <= k < |c| ==> c[k] == s[p + k];
    var x, y := c[i - p..j - p], s[i..j];
    assert |x| == |y| && forall k :: 0 <= k < |x| ==> x[k] == y[k];
  }

  lemma NoComma(s: string, p: nat)
    requires p <= |s|
    ensures var e := Until(s, Until(s, Until(s, p, NotBlank), EndsUrl), IsComma);
            forall k :: p <= k < e ==> s[k] != ','
  {
    hide Until;
    var b := Until(s, p, NotBlank);
    var t := Until(s, b, EndsUrl);
    assert forall k :: p <= k < b ==> !NotBlank(s[k]);
    assert forall k :: b <= k < t ==> !EndsUrl(s[k]);
    assert forall k :: t <= k < Until(s, t, IsComma) ==> !IsComma(s[k]);
  }

  lemma RewriteStart(s: string, f: string -> string)
    ensures RewriteFrom(s, 0, f) == Rewrite(s, f) && "" + Rewrite(s, f) == Rewrite(s, f)
  {
    assert s[0..] == s;
    EmptyRewrite(f);
  }

  lemma Regroup(r: string, a: string, u: string, d: string, c: string, rest: string)
    ensures r + (a + u + d + c + rest) == (r + a + u + d + c) + rest
  {
  }

  /** One of the inner loops: go on, and copy, as far as `stop`. */
  method CopyUntil(s: string, p: nat, stop: char -> bool) returns (e: nat, copied: string)
    requires p <= |s|
    ensures e == Until(s, p, stop) && copied == s[p..e]
  {
    e, copied := p, "";
    while e < |s| && !stop(s[e])
      invariant p <= e <= |s| && Until(s, e, stop) == Until(s, p, stop) && copied == s[p..e]
    {
      copied := copied + [s[e]];
      e := e + 1;
    }
  }

  function Linker(target: Option<Url>, proxyPath: string): string -> string {
    link => Rewritten(link, target, proxyPath)
  }

  /** `rewrite_srcset` */
  method RewriteSrcset(srcset: string, target: Option<Url>, proxyPath: string) returns (result: string)
    ensures result == Rewrite(srcset, Linker(target, proxyPath))
  {
    hide Rewrite, Rewritten, Until;
    ghost var f := Linker(target, proxyPath);
    result := "";
    var pos := 0;
    RewriteStart(srcset, f);
    while pos < |srcset|
      invariant result + RewriteFrom(srcset, pos, f) == Rewrite(srcset, f)
      decreases |srcset| - pos
    {
      PassStep(srcset, pos, f);
      ghost var before := result;
      var blanks, url, rest;
      pos, blanks := CopyUntil(srcset, pos, NotBlank);
      result := result + blanks;
      if pos >= |srcset| {
        BlanksOnly(srcset, pos);
        Regroup(before, blanks, "", "", "", "");
        assert result + "" == result;
        break;
      }
      pos, url := CopyUntil(srcset, pos, EndsUrl);
      ghost var link := if url != "" then f(url) else "";
      if url != "" {
        url := RewriteUrl(url, target, proxyPath);
      }
      result := result + url;
      pos, rest := CopyUntil(srcset, pos, IsComma);
      result := result + rest;
      var comma := if pos < |srcset| then "," else "";
      result := result + comma;
      Regroup(before, blanks, link, rest, comma, RewriteFrom(srcset, pos + 1, f));
      pos := pos + 1;
    }
    assert result + "" == result;
  }

  lemma BlanksOnly(s: string, p: nat)
    requires p == |s|
    ensures Until(s, p, EndsUrl) == p && Until(s, p, IsComma) == p && s[p..p] == ""
  {
  }

  // ---- What it does -------------------------------------------------------------------------

  predicate Commaless(c: string) {
    forall k :: 0 <= k < |c| ==> c[k] != ','
  }

  /** A list of candidates is rewritten candidate by candidate. */
  lemma {:induction false} EachOnItsOwn(first: string, more: string, f: string -> string)
    requires Commaless(first)
    ensures Rewrite(first + "," + more, f) == Candidate(first, f) + "," + Rewrite(more, f)
    ensures Rewrite(first, f) == Candidate(first, f)
  {
    var s := first + "," + more;
    assert s[|first|] == ',' && forall k :: 0 <= k < |first| ==> s[k] == first[k];
    var e := Find(s, 0, |s|, ',');
    assert e == |first|;
    assert s[..e] == first && s[e + 1..] == more;
    var g := Find(first, 0, |first|, ',');
    assert g == |first| && first[..g] == first;
    assert Candidate(first, f) + "" == Candidate(first, f);
    assert Candidate(first, f) + "," + Rewrite(more, f) == Candidate(first, f) + ("," + Rewrite(more, f));
  }

  /** Only URLs change: blanks, descriptors and commas are copied, so leaving every URL alone leaves the
      whole attribute alone. */
  lemma {:induction false} OnlyUrlsChange(s: string, f: string -> string)
    requires forall link :: f(link) == link
    ensures Rewrite(s, f) == s
    decreases |s|
  {
    hide Find, Candidate, Rewrite;
    var e := Find(s, 0, |s|, ',');
    CandidateSame(s[..e], f);
    Unfold(s, e, f);
    if e < |s| {
      OnlyUrlsChange(s[e + 1..], f);
      assert s == s[..e] + ("," + s[e + 1..]);
    } else {
      assert s[..e] + "" == s;
    }
  }

  lemma CandidateSame(c: string, f: string -> string)
    requires forall link :: f(link) == link
    ensures Candidate(c, f) == c
  {
    hide Until;
    var b := Until(c, 0, NotBlank);
    var t := Until(c, b, EndsUrl);
    assert c[..b] + c[b..t] + c[t..] == c;
    assert t == b ==> c[b..t] == "";
  }

  /** The URL of a candidate is its first word, which spaces, tabs and commas end; what comes before and after it
      stays, and so does a candidate of blanks only. */
  lemma CandidateParts(blanks: string, url: string, rest: string, f: string -> string)
    requires forall k :: 0 <= k < |blanks| ==> blanks[k] == ' ' || blanks[k] == '\t'
    requires url != "" && forall k :: 0 <= k < |url| ==> url[k] != ' ' && url[k] != '\t' && url[k] != ','
    requires rest == "" || rest[0] == ' ' || rest[0] == '\t' || rest[0] == ','
    ensures Candidate(blanks + url + rest, f) == blanks + f(url) + rest
    ensures Candidate(blanks, f) == blanks
  {
    assert Until(blanks, 0, NotBlank) == |blanks| && Until(blanks, |blanks|, EndsUrl) == |blanks|;
    assert blanks[..|blanks|] + "" + blanks[|blanks|..] == blanks;
    var c := blanks + url + rest;
    assert forall k :: 0 <= k < |blanks| ==> c[k] == blanks[k];
    assert forall k :: 0 <= k < |url| ==> c[|blanks| + k] == url[k];
    assert rest != "" ==> c[|blanks| + |url|] == rest[0];
    var b := Until(c, 0, NotBlank);
    assert NotBlank(c[|blanks|]);
    assert b == |blanks|;
    var t := Until(c, b, EndsUrl);
    assert t == |blanks| + |url|;
    assert c[..b] == blanks && c[b..t] == url && c[t..] == rest;
  }
}
