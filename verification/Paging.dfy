/** Sequence-level facts about a byte store cut into pages of one fixed size:
    the flat view of the pages, and what overwriting a slice of one page does to it. */
module Paging {

  newtype Byte = x: int | 0 <= x < 0x100

  /** The pages laid end to end. */
  ghost function Flatten(d: seq<seq<Byte>>): (f: seq<Byte>)
  {
    if d == [] then [] else d[0] + Flatten(d[1..])
  }

  ghost predicate Uniform(d: seq<seq<Byte>>, base: nat)
  {
    forall i :: 0 <= i < |d| ==> |d[i]| == base
  }

  /** `s` with the bytes from `a` on replaced by `t`. */
  ghost function Splice(s: seq<Byte>, a: nat, t: seq<Byte>): (r: seq<Byte>)
    requires a + |t| <= |s|
    ensures |r| == |s|
    decreases |t|
  {
    if t == [] then s else Splice(s[a := t[0]], a + 1, t[1..])
  }

  lemma {:induction false} SpliceParts(s: seq<Byte>, a: nat, t: seq<Byte>)
    requires a + |t| <= |s|
    ensures Splice(s, a, t) == s[..a] + t + s[a + |t|..]
    decreases |t|
  {
    if t == [] {
    } else {
      SpliceParts(s[a := t[0]], a + 1, t[1..]);
    }
  }

  lemma {:induction false} SpliceSplice(s: seq<Byte>, a: nat, t: seq<Byte>, u: seq<Byte>)
    requires a + |t| + |u| <= |s|
    ensures Splice(Splice(s, a, t), a + |t|, u) == Splice(s, a, t + u)
    decreases |t|
  {
    if t == [] {
      assert t + u == u;
    } else {
      SpliceSplice(s[a := t[0]], a + 1, t[1..], u);
      assert (t + u)[1..] == t[1..] + u;
    }
  }

  lemma SpliceNothing(s: seq<Byte>, a: nat, buf: seq<Byte>)
    requires a <= |s|
    ensures Splice(s, a, buf[..0]) == s
  {
  }

  lemma SpliceOn(s: seq<Byte>, a: nat, buf: seq<Byte>, done: nat, m: nat)
    requires a + |buf| <= |s| && done + m <= |buf|
    ensures Splice(Splice(s, a, buf[..done]), a + done, buf[done..done + m]) == Splice(s, a, buf[..done + m])
  {
    assert buf[..done] + buf[done..done + m] == buf[..done + m];
    SpliceSplice(s, a, buf[..done], buf[done..done + m]);
  }

  /** The flat specification of a write: `c` with `b` laid over it from `p` on, longer if `b` sticks out. */
  ghost function Overwrite(c: seq<Byte>, p: nat, b: seq<Byte>): (r: seq<Byte>)
    requires p <= |c|
    ensures |r| == if p + |b| > |c| then p + |b| else |c|
  {
    c[..p] + b + if p + |b| < |c| then c[p + |b|..] else []
  }

  lemma OverwriteTwice(c: seq<Byte>, p: nat, x: seq<Byte>, y: seq<Byte>)
    requires p <= |c|
    ensures Overwrite(Overwrite(c, p, x), p + |x|, y) == Overwrite(c, p, x + y)
  {
  }

  lemma OverwriteNothing(c: seq<Byte>, p: nat)
    requires p <= |c|
    ensures Overwrite(c, p, []) == c
  {
  }

  lemma OverwriteAtEnd(c: seq<Byte>, b: seq<Byte>)
    ensures Overwrite(c, |c|, b) == c + b
  {
  }

  /** A splice into grown memory, seen through the content it holds. */
  lemma SpliceOverwrites(s: seq<Byte>, g: seq<Byte>, size: nat, p: nat, b: seq<Byte>)
    requires s <= g && p <= size <= |s| && p + |b| <= |g|
    ensures var now := if p + |b| > size then p + |b| else size;
            Splice(g, p, b)[..now] == Overwrite(s[..size], p, b)
  {
    SpliceParts(g, p, b);
  }

  /** After `s` has grown to `g`, splicing `t` in changes the bytes it covers and no other. */
  lemma SpliceOver(s: seq<Byte>, g: seq<Byte>, a: nat, t: seq<Byte>)
    requires s <= g && a + |t| <= |g|
    ensures Splice(g, a, t)[a..a + |t|] == t
    ensures forall i :: 0 <= i < |s| && !(a <= i < a + |t|) ==> Splice(g, a, t)[i] == s[i]
  {
    SpliceParts(g, a, t);
  }

  lemma SliceJoin(s: seq<Byte>, a: nat, b: nat, c: nat)
    requires a <= b <= c <= |s|
    ensures s[a..b] + s[b..c] == s[a..c]
  {
  }

  /** The flat offset at which page `k` starts. */
  ghost function Start(k: nat, base: nat): nat {
    if k == 0 then 0 else Start(k - 1, base) + base
  }

  lemma SliceOfTail(s: seq<Byte>, from: nat, a: nat, b: nat)
    requires a <= b && from + b <= |s|
    ensures s[from..][a..b] == s[from + a..from + b]
  {
  }

  lemma StartNone(base: nat)
    ensures Start(0, base) == 0
  {
  }

  lemma StartStep(k: nat, base: nat)
    ensures Start(k + 1, base) == Start(k, base) + base
  {
  }

  lemma {:induction false} StartIsProduct(k: nat, base: nat)
    ensures Start(k, base) == k * base
  {
    if k > 0 {
      StartIsProduct(k - 1, base);
      assert k * base == (k - 1) * base + base;
    }
  }

  lemma {:induction false} StartSum(j: nat, k: nat, base: nat)
    ensures Start(j + k, base) == Start(j, base) + Start(k, base)
  {
    if k > 0 {
      StartSum(j, k - 1, base);
    }
  }

  /** Offset `off` of page `k` precedes the start of page `m` just when `k` precedes `m`. */
  lemma {:induction false} StartMonotone(k: nat, off: nat, m: nat, base: nat)
    requires off < base
    ensures k < m ==> Start(k, base) + base <= Start(m, base)
    ensures k < m <==> Start(k, base) + off < Start(m, base)
  {
    if k < m {
      StartSum(k, m - k, base);
      assert Start(m - k, base) >= base;
    } else {
      StartSum(m, k - m, base);
    }
  }

  lemma StartsPage(v: nat, k: nat, off: nat, m: nat, base: nat)
    requires off < base && v == Start(k, base) + off && m > 0
    ensures k + 1 == m && off == 0 <==> v == Start(m - 1, base)
  {
    StartMonotone(k, off, m - 1, base);
    StartMonotone(m - 1, 0, k, base);
  }

  /** A position determines its page and its offset in the page. */
  lemma Locate(p: nat, k: nat, off: nat, base: nat)
    requires off < base && p == Start(k, base) + off
    ensures p / base == k && p % base == off
  {
    StartIsProduct(k, base);
    StartIsProduct(p / base, base);
    assert p == (p / base) * base + p % base;
    StartMonotone(k, off, p / base, base);
    StartMonotone(p / base, p % base, k, base);
  }

  lemma Decompose(p: nat, base: nat)
    requires base > 0
    ensures p == Start(p / base, base) + p % base && p % base < base
  {
    StartIsProduct(p / base, base);
  }

  lemma {:induction false} FlattenLength(d: seq<seq<Byte>>, base: nat)
    requires Uniform(d, base)
    ensures |Flatten(d)| == Start(|d|, base)
  {
    if d != [] {
      FlattenLength(d[1..], base);
    }
  }

  lemma {:induction false} FlattenConcat(d: seq<seq<Byte>>, e: seq<seq<Byte>>)
    ensures Flatten(d + e) == Flatten(d) + Flatten(e)
  {
    if d == [] {
      assert d + e == e;
    } else {
      FlattenConcat(d[1..], e);
      assert (d + e)[1..] == d[1..] + e && (d + e)[0] == d[0];
      assert Flatten(d + e) == d[0] + (Flatten(d[1..]) + Flatten(e));
    }
  }

  lemma FlattenPrefix(d: seq<seq<Byte>>, k: nat)
    requires k <= |d|
    ensures Flatten(d[..k]) <= Flatten(d)
  {
    FlattenConcat(d[..k], d[k..]);
    assert d == d[..k] + d[k..];
  }

  /** Any page's bytes stand between those of the pages before it and those of the pages after. */
  lemma {:induction false} FlattenAround(d: seq<seq<Byte>>, k: nat)
    requires k < |d|
    ensures Flatten(d) == Flatten(d[..k]) + d[k] + Flatten(d[k + 1..])
  {
    if k == 0 {
      assert Flatten(d[..0]) + d[0] == d[0];
    } else {
      var e := d[1..];
      FlattenAround(e, k - 1);
      assert e[..k - 1] == d[1..k] && e[k..] == d[k + 1..];
      assert d[..k][1..] == d[1..k];
      assert Flatten(d[..k]) == d[0] + Flatten(d[1..k]);
    }
  }

  /** A slice of page `k` is the slice of the flat view that starts `k` pages further on. */
  lemma FlattenSlice(d: seq<seq<Byte>>, base: nat, k: nat, off: nat, n: nat)
    requires Uniform(d, base) && k < |d| && off + n <= base
    ensures Start(k, base) + off + n <= |Flatten(d)|
    ensures Flatten(d)[Start(k, base) + off..Start(k, base) + off + n] == d[k][off..off + n]
  {
    FlattenAround(d, k);
    FlattenLength(d[..k], base);
    var l, r := Flatten(d[..k]), Flatten(d[k + 1..]);
    assert (l + d[k] + r)[|l| + off..|l| + off + n] == d[k][off..off + n];
  }

  /** Overwriting a slice of page `k` overwrites the matching slice of the flat view. */
  lemma FlattenUpdate(d: seq<seq<Byte>>, base: nat, k: nat, off: nat, t: seq<Byte>)
    requires Uniform(d, base) && k < |d| && off + |t| <= base
    ensures Start(k, base) + off + |t| <= |Flatten(d)|
    ensures Flatten(d[k := Splice(d[k], off, t)]) == Splice(Flatten(d), Start(k, base) + off, t)
  {
    assert Start(k, base) == |Flatten(d[..k])| by {
      FlattenLength(d[..k], base);
    }
    UpdateBehind(d, k, off, t);
  }

  lemma UpdateBehind(d: seq<seq<Byte>>, k: nat, off: nat, t: seq<Byte>)
    requires k < |d| && off + |t| <= |d[k]|
    ensures |Flatten(d[..k])| + off + |t| <= |Flatten(d)|
    ensures Flatten(d[k := Splice(d[k], off, t)]) == Splice(Flatten(d), |Flatten(d[..k])| + off, t)
  {
    var e := d[k := Splice(d[k], off, t)];
    FlattenAround(d, k);
    FlattenAround(e, k);
    assert e[..k] == d[..k] && e[k + 1..] == d[k + 1..];
    SpliceMiddle(Flatten(d[..k]), d[k], Flatten(d[k + 1..]), off, t);
  }

  lemma SpliceMiddle(l: seq<Byte>, m: seq<Byte>, r: seq<Byte>, off: nat, t: seq<Byte>)
    requires off + |t| <= |m|
    ensures l + Splice(m, off, t) + r == Splice(l + m + r, |l| + off, t)
  {
    var whole := l + m + r;
    SpliceParts(m, off, t);
    SpliceParts(whole, |l| + off, t);
    assert whole[..|l| + off] == l + m[..off];
    assert whole[|l| + off + |t|..] == m[off + |t|..] + r;
  }
}
