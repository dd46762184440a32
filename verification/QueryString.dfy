/** The query parser: it splits the query at `&` and `=`, decodes the pieces and sets one parameter for each
    piece that has a `=`. */
module QueryString {
  import opened Percent
  import Search

  // ---- Searching ----------------------------------------------------------------------------

  /** `std::string::find`: the first `c` from `start` on, or the length when there is none. */
  function Find(s: string, c: char, start: nat): (i: nat)
    requires start <= |s|
    ensures start <= i <= |s| && (forall k :: start <= k < i ==> s[k] != c) && (i < |s| ==> s[i] == c)
  {
    Search.Find(s, start, |s|, c)
  }

  // ---- Parameters ---------------------------------------------------------------------------

  /** Keys are compared as C strings and without regard to case. */
  function Fold(key: string): string {
    if key == "" || key[0] == '\0' then ""
    else [if 'A' <= key[0] <= 'Z' then (key[0] as int + 32) as char else key[0]] + Fold(key[1..])
  }

  /** The C string: what comes before the first NUL. */
  function CString(s: string): string {
    s[..Find(s, '\0', 0)]
  }

  function Upper(i: nat): char
    requires i < 26
  {
    ('A' as int + i) as char
  }

  function Lower(i: nat): char
    requires i < 26
  {
    ('a' as int + i) as char
  }

  /** The same character, or the same letter in another case. */
  ghost predicate SameButCase(x: char, y: char) {
    x == y || exists i: nat :: i < 26 && {x, y} == {Upper(i), Lower(i)}
  }

  /** `strcasecmp` finds no difference. */
  ghost predicate SameKey(a: string, b: string) {
    |CString(a)| == |CString(b)| && forall k :: 0 <= k < |CString(a)| ==> SameButCase(CString(a)[k], CString(b)[k])
  }

  function FoldChar(c: char): char {
    if 'A' <= c <= 'Z' then (c as int + 32) as char else c
  }

  lemma FoldCharSame(x: char, y: char)
    ensures FoldChar(x) == FoldChar(y) <==> SameButCase(x, y)
  {
    if x != y && FoldChar(x) == FoldChar(y) {
      var i := (if 'A' <= x <= 'Z' then x else y) as int - 'A' as int;
      assert {x, y} == {Upper(i), Lower(i)};
    }
    if i: nat :| i < 26 && {x, y} == {Upper(i), Lower(i)} {
      PairMembers(x, y, Upper(i), Lower(i));
    }
  }

  lemma PairMembers(x: char, y: char, a: char, b: char)
    requires {x, y} == {a, b}
    ensures (x == a && y == b) || (x == b && y == a)
  {
    assert x in {a, b} && y in {a, b} && a in {x, y} && b in {x, y};
  }

  lemma {:induction false} FoldsEach(s: string)
    ensures |Fold(s)| == |CString(s)|
    ensures forall k :: 0 <= k < |CString(s)| ==> Fold(s)[k] == FoldChar(CString(s)[k])
    decreases |s|
  {
    if s != "" && s[0] != '\0' {
      FoldsEach(s[1..]);
      FindShift(s, '\0', 1);
      assert Find(s, '\0', 0) == Find(s, '\0', 1);
      assert CString(s) == [s[0]] + CString(s[1..]);
    } else {
      assert Find(s, '\0', 0) == 0;
    }
  }

  /** Two keys name the same parameter just when they agree up to the case of letters, as far as a NUL. */
  lemma FoldSame(a: string, b: string)
    ensures Fold(a) == Fold(b) <==> SameKey(a, b)
  {
    hide Fold, CString, FoldChar, SameButCase;
    FoldsEach(a);
    FoldsEach(b);
    forall x, y
      ensures FoldChar(x) == FoldChar(y) <==> SameButCase(x, y)
    {
      FoldCharSame(x, y);
    }
    if SameKey(a, b) {
      assert forall k :: 0 <= k < |Fold(a)| ==> Fold(a)[k] == Fold(b)[k];
    }
    if Fold(a) == Fold(b) {
      assert forall k :: 0 <= k < |Fold(a)| ==> FoldChar(CString(a)[k]) == FoldChar(CString(b)[k]);
    }
  }

  type Pair = (string, string)

  class HttpRequest {
    var query: string
    /** By folded key. */
    var params: map<string, string>

    constructor (query: string)
      ensures this.query == query && params == map[]
    {
      this.query := query;
      params := map[];
    }

    method SetParam(key: string, value: string)
      modifies this`params
      ensures params == old(params)[Fold(key) := value]
    {
      params := params[Fold(key) := value];
    }

    /** `_parseQuery` */
    method ParseQuery()
      modifies this`params
      ensures params == Set(old(params), Calls(query))
    {
      hide Calls, CallsFrom, Set, Find, Fold, Decoded;
      var start := 0;
      ghost var before := params;
      CallsStart(query);
      while start < |query|
        invariant Set(params, CallsFrom(query, start)) == Set(before, Calls(query))
        decreases |query| - start
      {
        var keyEnd := Find(query, '=', start);
        var valueEnd := Find(query, '&', start);
        CallsStep(query, start);
        if keyEnd < |query| && keyEnd < valueEnd {
          var key := UrlDecode(query[start..keyEnd]);
          var value := UrlDecode(query[keyEnd + 1..valueEnd]);
          SetFirst(params, (key, value), CallsFrom(query, valueEnd + 1));
          SetParam(key, value);
        } else {
          assert [] + CallsFrom(query, valueEnd + 1) == CallsFrom(query, valueEnd + 1);
        }
        start := valueEnd + 1;
      }
      CallsEnd(query, start);
    }
  }

  /** Parameter settings, one after the other. */
  function Set(params: map<string, string>, calls: seq<Pair>): map<string, string>
    decreases |calls|
  {
    if calls == [] then params else Set(params[Fold(calls[0].0) := calls[0].1], calls[1..])
  }

  lemma SetFirst(params: map<string, string>, first: Pair, rest: seq<Pair>)
    ensures Set(params, [first] + rest) == Set(params[Fold(first.0) := first.1], rest)
  {
    assert ([first] + rest)[1..] == rest;
  }

  /** A piece between two `&` sets a parameter when it has a `=`; the first one separates key and value. */
  function PieceCalls(piece: string): seq<Pair> {
    var k := Find(piece, '=', 0);
    if k < |piece| then [(Decoded(piece[..k]), Decoded(piece[k + 1..]))] else []
  }

  /** The settings a query stands for. */
  function Calls(query: string): seq<Pair>
    decreases |query|
  {
    var end := Find(query, '&', 0);
    PieceCalls(query[..end]) + if end < |query| then Calls(query[end + 1..]) else []
  }

  ghost function CallsFrom(query: string, start: nat): seq<Pair> {
    if start <= |query| then Calls(query[start..]) else []
  }

  lemma FindShift(s: string, c: char, start: nat)
    requires start <= |s|
    ensures Find(s[start..], c, 0) + start == Find(s, c, start)
  {
    assert s[start..|s|] == s[start..];
    FindInPiece(s, c, start, |s|);
  }

  /** One pass of the loop deals with one piece. */
  lemma CallsStep(query: string, start: nat)
    requires start < |query|
    ensures var keyEnd, valueEnd := Find(query, '=', start), Find(query, '&', start);
            CallsFrom(query, start)
            == (if keyEnd < |query| && keyEnd < valueEnd
                then [(Decoded(query[start..keyEnd]), Decoded(query[keyEnd + 1..valueEnd]))] else [])
               + CallsFrom(query, valueEnd + 1)
  {
    hide PieceCalls, Find, Decoded, Calls, CallsFrom;
    PieceAt(query, start);
    PieceFirst(query, start, Find(query, '&', start));
  }

  lemma PieceFirst(query: string, start: nat, end: nat)
    requires start < |query| && end == Find(query, '&', start)
    ensures CallsFrom(query, start) == PieceCalls(query[start..end]) + CallsFrom(query, end + 1)
  {
    hide PieceCalls, Find;
    FindShift(query, '&', start);
    var rest := query[start..];
    assert rest[..end - start] == query[start..end];
    if end < |query| {
      assert rest[end - start + 1..] == query[end + 1..];
    }
  }

  lemma PieceAt(query: string, start: nat)
    requires start < |query|
    ensures var keyEnd, valueEnd := Find(query, '=', start), Find(query, '&', start);
            PieceCalls(query[start..valueEnd])
            == if keyEnd < |query| && keyEnd < valueEnd
               then [(Decoded(query[start..keyEnd]), Decoded(query[keyEnd + 1..valueEnd]))] else []
  {
    hide Decoded, Find;
    var keyEnd, valueEnd := Find(query, '=', start), Find(query, '&', start);
    FindInPiece(query, '=', start, valueEnd);
    if keyEnd < valueEnd {
      SliceSlice(query, start, valueEnd, 0, keyEnd - start);
      SliceSlice(query, start, valueEnd, keyEnd - start + 1, valueEnd - start);
    }
  }

  lemma SliceSlice(s: string, from: nat, to: nat, a: nat, b: nat)
    requires from <= to <= |s| && a <= b <= to - from
    ensures s[from..to][a..b] == s[from + a..from + b]
    ensures s[from..to][..b] == s[from..to][0..b]
    ensures b == to - from ==> s[from..to][a..] == s[from + a..from + b]
  {
    var t := s[from..to];
    assert forall k :: 0 <= k < |t| ==> t[k] == s[from + k];
    var x, y := t[a..b], s[from + a..from + b];
    assert |x| == |y| && forall k :: 0 <= k < |x| ==> x[k] == y[k];
  }

  lemma FindInPiece(s: string, c: char, start: nat, end: nat)
    requires start <= end <= |s|
    ensures var i := Find(s, c, start); Find(s[start..end], c, 0) == if i < end then i - start else end - start
  {
    hide Find;
    var piece := s[start..end];
    var i, j := Find(s, c, start), Find(piece, c, 0);
    if i < end {
      assert piece[i - start] == c;
    }
    if j < |piece| {
      assert s[start + j] == c;
    }
  }

  lemma CallsStart(query: string)
    ensures CallsFrom(query, 0) == Calls(query)
  {
    assert query[0..] == query;
  }

  lemma CallsEnd(query: string, start: nat)
    requires start >= |query|
    ensures CallsFrom(query, start) == [] && forall params :: Set(params, []) == params
  {
    if start == |query| {
      assert query[start..] == "";
    }
  }

  // ---- Round trip ---------------------------------------------------------------------------

  predicate AllOctets(list: seq<Pair>) {
    forall k :: 0 <= k < |list| ==> Octets(list[k].0) && Octets(list[k].1)
  }

  /** The encoded `key=value` pairs, joined with `&`. */
  function Joined(list: seq<Pair>, encodeAll: bool): string
    requires AllOctets(list)
  {
    if list == [] then ""
    else Item(list[0], encodeAll) + if |list| == 1 then "" else "&" + Joined(list[1..], encodeAll)
  }

  function Item(pair: Pair, encodeAll: bool): string {
    Encoded(pair.0, Kept(encodeAll)) + "=" + Encoded(pair.1, Kept(encodeAll))
  }

  predicate Without(s: string, c: char) {
    forall k :: 0 <= k < |s| ==> s[k] != c
  }

  lemma NoSeparators(s: string, encodeAll: bool)
    requires Octets(s)
    ensures Without(Encoded(s, Kept(encodeAll)), '&') && Without(Encoded(s, Kept(encodeAll)), '=')
  {
    EncodedIsSafe(s, encodeAll);
  }

  lemma FindFirst(a: string, c: char, b: string)
    requires Without(a, c)
    ensures Find(a + [c] + b, c, 0) == |a| && Find(a, c, 0) == |a|
  {
    var t := a + [c] + b;
    assert forall k :: 0 <= k < |a| ==> t[k] == a[k];
    assert t[|a|] == c;
    var i := Find(t, c, 0);
    var j := Find(a, c, 0);
    assert i >= |a| && j >= |a|;
  }

  lemma ItemCalls(pair: Pair, encodeAll: bool)
    requires Octets(pair.0) && Octets(pair.1)
    ensures PieceCalls(Item(pair, encodeAll)) == [pair] && Without(Item(pair, encodeAll), '&')
  {
    var k, v := Encoded(pair.0, Kept(encodeAll)), Encoded(pair.1, Kept(encodeAll));
    NoSeparators(pair.0, encodeAll);
    NoSeparators(pair.1, encodeAll);
    UrlRoundTrip(pair.0, encodeAll);
    UrlRoundTrip(pair.1, encodeAll);
    hide Encoded, Decoded, Kept, Find;
    FindFirst(k, '=', v);
    var item := k + "=" + v;
    assert item[..|k|] == k && item[|k| + 1..] == v;
  }

  /** Parsing the query made of a list makes exactly the settings of that list, in order. */
  lemma {:induction false} QueryRoundTrip(list: seq<Pair>, encodeAll: bool)
    requires AllOctets(list)
    ensures Calls(Joined(list, encodeAll)) == list
  {
    hide Item, PieceCalls, Calls;
    if list == [] {
      CallsOfPiece("");
    } else {
      ItemCalls(list[0], encodeAll);
      if |list| == 1 {
        CallsOfPiece(Item(list[0], encodeAll));
        assert Item(list[0], encodeAll) + "" == Item(list[0], encodeAll);
      } else {
        QueryRoundTrip(list[1..], encodeAll);
        CallsOfPieces(Item(list[0], encodeAll), Joined(list[1..], encodeAll));
      }
      assert list == [list[0]] + list[1..];
    }
  }

  lemma CallsOfPiece(piece: string)
    requires Without(piece, '&')
    ensures Calls(piece) == PieceCalls(piece) && (piece == "" ==> Calls(piece) == [])
  {
    FindFirst(piece, '&', "");
    assert piece[..|piece|] == piece;
    assert PieceCalls(piece) + [] == PieceCalls(piece);
  }

  lemma CallsOfPieces(piece: string, more: string)
    requires Without(piece, '&')
    ensures Calls(piece + ("&" + more)) == PieceCalls(piece) + Calls(more)
  {
    var q := piece + ("&" + more);
    assert q == piece + "&" + more;
    FindFirst(piece, '&', more);
    assert q[..|piece|] == piece && q[|piece| + 1..] == more;
    hide PieceCalls;
  }

  /** The last setting of a key, in any case, is the one that stays. */
  lemma {:induction false} LastSettingStays(params: map<string, string>, list: seq<Pair>, k: nat)
    requires k < |list| && forall j :: k < j < |list| ==> Fold(list[j].0) != Fold(list[k].0)
    ensures Fold(list[k].0) in Set(params, list) && Set(params, list)[Fold(list[k].0)] == list[k].1
    decreases |list|
  {
    if k == 0 {
      Untouched(params[Fold(list[0].0) := list[0].1], list[1..], Fold(list[0].0));
    } else {
      LastSettingStays(params[Fold(list[0].0) := list[0].1], list[1..], k - 1);
    }
  }

  lemma {:induction false} Untouched(params: map<string, string>, list: seq<Pair>, key: string)
    requires key in params && forall j :: 0 <= j < |list| ==> Fold(list[j].0) != key
    ensures key in Set(params, list) && Set(params, list)[key] == params[key]
    decreases |list|
  {
    if list != [] {
      Untouched(params[Fold(list[0].0) := list[0].1], list[1..], key);
    }
  }
}
