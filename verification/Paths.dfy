/** Path normalisation. */
module Paths {

  // ---- Pieces between slashes ---------------------------------------------------------------

  /** The pieces between slashes, empty ones included: one more than there are slashes. */
  function Split(s: string): (pieces: seq<string>)
    ensures pieces != []
  {
    if s == "" then [""]
    else Prepend(s[0], Split(s[1..]))
  }

  predicate Slashless(s: string) {
    forall k :: 0 <= k < |s| ==> s[k] != '/'
  }

  lemma {:induction false} SplitSlashless(s: string)
    requires Slashless(s)
    ensures Split(s) == [s]
  {
    if s != "" {
      SplitSlashless(s[1..]);
      assert [s[0]] + s[1..] == s;
    }
  }

  /** Joining with a slash joins the pieces. */
  lemma {:induction false} SplitJoin(a: string, b: string)
    ensures Split(a + "/" + b) == Split(a) + Split(b)
  {
    var t := a + "/" + b;
    if a == "" {
      assert t[1..] == b;
    } else {
      SplitJoin(a[1..], b);
      assert t[1..] == a[1..] + "/" + b;
      PrependFirst(a[0], Split(a[1..]), Split(b));
      hide PieceEnd, Resolve;
    }
  }

  function Prepend(c: char, pieces: seq<string>): seq<string>
    requires pieces != []
  {
    if c == '/' then [""] + pieces else [[c] + pieces[0]] + pieces[1..]
  }

  lemma PrependFirst(c: char, x: seq<string>, y: seq<string>)
    requires x != []
    ensures Prepend(c, x + y) == Prepend(c, x) + y
  {
    assert (x + y)[0] == x[0] && (x + y)[1..] == x[1..] + y;
  }

  // ---- Resolving dots -----------------------------------------------------------------------

  predicate Skipped(piece: string) {
    piece == "" || piece == "."
  }

  predicate Plain(piece: string) {
    !Skipped(piece) && piece != ".."
  }

  /** What one piece does to the segments found so far. */
  function Apply(parts: seq<string>, piece: string): seq<string> {
    if Skipped(piece) then parts
    else if piece == ".." then (if parts == [] then [] else parts[..|parts| - 1])
    else parts + [piece]
  }

  function Resolve(parts: seq<string>, pieces: seq<string>): seq<string>
    decreases |pieces|
  {
    if pieces == [] then parts else Resolve(Apply(parts, pieces[0]), pieces[1..])
  }

  function Slashed(parts: seq<string>): string {
    if parts == [] then "" else "/" + parts[0] + Slashed(parts[1..])
  }

  function Render(parts: seq<string>): string {
    if parts == [] then "/" else Slashed(parts)
  }

  function Normalized(path: string): string {
    Render(Resolve([], Split(path)))
  }

  // ---- The loop -----------------------------------------------------------------------------

  /** Where the piece that starts at `p` ends. */
  function PieceEnd(s: string, p: nat): (e: nat)
    requires p <= |s|
    ensures p <= e <= |s| && Slashless(s[p..e]) && (e < |s| ==> s[e] == '/')
    decreases |s| - p
  {
    if p == |s| || s[p] == '/' then p
    else
      var e := PieceEnd(s, p + 1);
      assert s[p..e] == [s[p]] + s[p + 1..e];
      e
  }

  /** Resolving what is left of the path gives the result; `std::getline` stops at the end of the text
      without reading the empty piece after a last slash. */
  ghost predicate Left(path: string, p: nat, parts: seq<string>) {
    if p < |path| then Resolve(parts, Split(path[p..])) == Resolve([], Split(path))
    else parts == Resolve([], Split(path))
  }

  lemma LeftStart(path: string)
    ensures Left(path, 0, [])
  {
    assert path[0..] == path;
    if path == "" {
      assert Split(path) == [""] && [""][1..] == [];
    }
  }

  lemma LeftStep(path: string, p: nat, parts: seq<string>)
    requires p < |path| && Left(path, p, parts)
    ensures var e := PieceEnd(path, p); Left(path, e + 1, Apply(parts, path[p..e]))
  {
    hide Apply, Split, Resolve, PieceEnd;
    var e := PieceEnd(path, p);
    var piece := path[p..e];
    SplitSlashless(piece);
    ResolveOne(parts, piece);
    if e == |path| {
      assert path[p..] == piece;
    } else {
      var rest := path[e + 1..];
      assert path[p..] == piece + "/" + rest;
      SplitJoin(piece, rest);
      ResolveConcat(parts, [piece], Split(rest));
      SplitSlashless("");
      ResolveOne(Apply(parts, piece), "");
      ApplyCases(Apply(parts, piece), "");
    }
  }

  /** `normalize_path` */
  method NormalizePath(path: string) returns (result: string)
    ensures result == Normalized(path)
  {
    hide Split, Resolve, Apply, Slashed, PieceEnd, Left;
    var parts: seq<string> := [];
    var p := 0;
    LeftStart(path);
    while p < |path|
      invariant Left(path, p, parts)
      decreases |path| - p
    {
      var e := PieceEnd(path, p);
      var part := path[p..e];
      LeftStep(path, p, parts);
      ApplyCases(parts, part);
      if part == "" || part == "." {
      } else if part == ".." {
        if parts != [] {
          parts := parts[..|parts| - 1];
        }
      } else {
        parts := parts + [part];
      }
      p := e + 1;
    }
    LeftEnd(path, p, parts);
    result := "";
    var i := 0;
    SlashedFrom(parts, 0);
    while i < |parts|
      invariant i <= |parts| && result + Slashed(parts[i..]) == Slashed(parts)
    {
      SlashedFrom(parts, i);
      Shift(result, "/" + parts[i], Slashed(parts[i + 1..]));
      result := result + ("/" + parts[i]);
      i := i + 1;
    }
    SlashedFrom(parts, i);
    assert result + "" == result;
    if result == "" {
      result := "/";
    }
  }

  lemma ApplyCases(parts: seq<string>, piece: string)
    ensures piece == "" || piece == "." ==> Apply(parts, piece) == parts
    ensures piece == ".." ==> Apply(parts, piece) == if parts == [] then [] else parts[..|parts| - 1]
    ensures piece != "" && piece != "." && piece != ".." ==> Apply(parts, piece) == parts + [piece]
  {
  }

  lemma LeftEnd(path: string, p: nat, parts: seq<string>)
    requires p >= |path| && Left(path, p, parts)
    ensures Normalized(path) == Render(parts)
  {
  }

  lemma SlashedFrom(parts: seq<string>, i: nat)
    requires i <= |parts|
    ensures Slashed(parts[i..]) == if i == |parts| then "" else "/" + parts[i] + Slashed(parts[i + 1..])
    ensures Slashed(parts) == "" <==> parts == []
    ensures "" + Slashed(parts) == Slashed(parts) && parts[0..] == parts
  {
    if i < |parts| {
      assert parts[i..][1..] == parts[i + 1..];
    }
  }

  lemma Shift(r: string, x: string, rest: string)
    ensures r + (x + rest) == (r + x) + rest
  {
  }

  // ---- Laws ---------------------------------------------------------------------------------

  predicate AllPlain(parts: seq<string>) {
    forall k :: 0 <= k < |parts| ==> Plain(parts[k]) && Slashless(parts[k])
  }

  predicate AllSlashless(pieces: seq<string>) {
    forall k :: 0 <= k < |pieces| ==> Slashless(pieces[k])
  }

  lemma {:induction false} PiecesSlashless(s: string)
    ensures AllSlashless(Split(s))
  {
    if s != "" {
      PiecesSlashless(s[1..]);
    }
  }

  lemma {:induction false} ResolvePlain(parts: seq<string>, pieces: seq<string>)
    requires AllPlain(parts) && AllSlashless(pieces)
    ensures AllPlain(Resolve(parts, pieces))
    decreases |pieces|
  {
    if pieces != [] {
      ResolvePlain(Apply(parts, pieces[0]), pieces[1..]);
    }
  }

  lemma {:induction false} ResolveConcat(parts: seq<string>, a: seq<string>, b: seq<string>)
    ensures Resolve(parts, a + b) == Resolve(Resolve(parts, a), b)
    decreases |a|
  {
    if a == [] {
      assert a + b == b;
    } else {
      ResolveConcat(Apply(parts, a[0]), a[1..], b);
      assert (a + b)[1..] == a[1..] + b;
    }
  }

  lemma {:induction false} ResolveAppends(parts: seq<string>, pieces: seq<string>)
    requires AllPlain(pieces)
    ensures Resolve(parts, pieces) == parts + pieces
    decreases |pieces|
  {
    if pieces == [] {
      assert parts + [] == parts;
    } else {
      ResolveAppends(parts + [pieces[0]], pieces[1..]);
      assert parts + pieces == parts + [pieces[0]] + pieces[1..];
    }
  }

  lemma {:induction false} SplitSlashed(parts: seq<string>)
    requires AllSlashless(parts)
    ensures Split(Slashed(parts)) == [""] + parts
  {
    if parts == [] {
      assert [""] + [] == [""];
    } else {
      var rest := Slashed(parts[1..]);
      SplitSlashed(parts[1..]);
      assert Slashed(parts) == "" + "/" + (parts[0] + rest);
      SplitJoin("", parts[0] + rest);
      if parts[1..] == [] {
        assert parts[0] + rest == parts[0];
        SplitSlashless(parts[0]);
      } else {
        var tail := parts[1] + Slashed(parts[1..][1..]);
        assert rest == "/" + tail;
        assert parts[0] + rest == parts[0] + "/" + tail;
        SplitJoin(parts[0], tail);
        SplitSlashless(parts[0]);
        SplitJoin("", tail);
        assert rest == "" + "/" + tail;
        assert [""] + Split(tail) == [""] + parts[1..];
        assert Split(tail) == ([""] + Split(tail))[1..] == ([""] + parts[1..])[1..] == parts[1..];
      }
      assert parts == [parts[0]] + parts[1..];
    }
  }

  /** Reading back a rendered path gives its segments. */
  lemma ResolveRendered(parts: seq<string>)
    requires AllPlain(parts)
    ensures Resolve([], Split(Render(parts))) == parts
  {
    if parts == [] {
      SplitSlashed([""]);
      assert Slashed([""]) == "/" by {
        assert "/" + "" + "" == "/";
      }
      assert Resolve([], ["", ""]) == Resolve([], [""]) == Resolve([], []) by {
        assert ["", ""][1..] == [""] && [""][1..] == [];
      }
      assert [""] + [""] == ["", ""];
    } else {
      SplitSlashed(parts);
      assert ([""] + parts)[1..] == parts;
      ResolveAppends([], parts);
      assert [] + parts == parts;
    }
  }

  /** The result is `/`, or its segments are neither empty nor `.` nor `..` and hold no slash. */
  lemma SegmentsPlain(path: string)
    ensures AllPlain(Resolve([], Split(path)))
    ensures Normalized(path) == "/" || Split(Normalized(path)) == [""] + Resolve([], Split(path))
  {
    PiecesSlashless(path);
    ResolvePlain([], Split(path));
    if Resolve([], Split(path)) != [] {
      SplitSlashed(Resolve([], Split(path)));
    }
  }

  lemma Idempotent(path: string)
    ensures Normalized(Normalized(path)) == Normalized(path)
  {
    SegmentsPlain(path);
    ResolveRendered(Resolve([], Split(path)));
  }

  /** Normalising the front of a path first makes no difference. */
  lemma JoinLaw(a: string, b: string)
    ensures Normalized(a + "/" + b) == Normalized(Normalized(a) + "/" + b)
  {
    var parts := Resolve([], Split(a));
    SplitJoin(a, b);
    ResolveConcat([], Split(a), Split(b));
    SplitJoin(Normalized(a), b);
    ResolveConcat([], Split(Normalized(a)), Split(b));
    SegmentsPlain(a);
    ResolveRendered(parts);
  }

  // ---- An independent account of `..` -------------------------------------------------------

  /** From the right: each `..` cancels the nearest plain piece before it that is not yet cancelled;
      `owed` counts those still to be cancelled. */
  function Uncancelled(pieces: seq<string>, owed: nat): seq<string> {
    if pieces == [] then [] else
      var front, last := pieces[..|pieces| - 1], pieces[|pieces| - 1];
      if Skipped(last) then Uncancelled(front, owed)
      else if last == ".." then Uncancelled(front, owed + 1)
      else if owed > 0 then Uncancelled(front, owed - 1)
      else Uncancelled(front, 0) + [last]
  }

  function Shortened(parts: seq<string>, n: nat): seq<string> {
    if n >= |parts| then [] else parts[..|parts| - n]
  }

  lemma {:induction false} StackCancels(pieces: seq<string>, owed: nat)
    ensures Uncancelled(pieces, owed) == Shortened(Resolve([], pieces), owed)
  {
    if pieces != [] {
      var front, last := pieces[..|pieces| - 1], pieces[|pieces| - 1];
      assert pieces == front + [last];
      ResolveConcat([], front, [last]);
      ResolveOne(Resolve([], front), last);
      StackCancels(front, if Skipped(last) then owed
                          else if last == ".." then owed + 1
                          else if owed > 0 then owed - 1 else 0);
    }
  }

  lemma ResolveOne(parts: seq<string>, piece: string)
    ensures Resolve(parts, [piece]) == Apply(parts, piece)
  {
    assert [piece][1..] == [];
  }

  /** The normalised path consists of the pieces that no later `..` cancels. */
  lemma NormalizedKeepsUncancelled(path: string)
    ensures Normalized(path) == Render(Uncancelled(Split(path), 0))
  {
    StackCancels(Split(path), 0);
    assert Shortened(Resolve([], Split(path)), 0) == Resolve([], Split(path));
  }

  /** A `..` with nothing left to cancel disappears: the result never climbs above the root. */
  lemma NeverClimbs(path: string)
    ensures Normalized("../" + path) == Normalized(path)
  {
    hide Split, Resolve, Render;
    assert ".." + "/" + path == "../" + path;
    SplitJoin("..", path);
    SplitSlashless("..");
    ResolveConcat([], [".."], Split(path));
    ResolveOne([], "..");
  }
}
