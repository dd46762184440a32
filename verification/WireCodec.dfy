/** The wire formats of the buffer's typed accessors, as functions on byte sequences. */
module WireCodec {
  import opened Paging

  // ---- Fixed-width integers -----------------------------------------------------------------

  /** `256^w`: the number of values a `w`-byte integer has. */
  function Span(w: nat): (p: nat)
    ensures p > 0
  {
    if w == 0 then 1 else 256 * Span(w - 1)
  }

  /** The low `w` bytes of `n`, least significant first. */
  function LittleEndian(n: nat, w: nat): (s: seq<Byte>)
    ensures |s| == w
  {
    if w == 0 then [] else [(n % 256) as Byte] + LittleEndian(n / 256, w - 1)
  }

  function FromLittleEndian(s: seq<Byte>): (n: nat)
    ensures n < Span(|s|)
  {
    if s == [] then 0 else s[0] as nat + 256 * FromLittleEndian(s[1..])
  }

  function Reverse(s: seq<Byte>): (r: seq<Byte>)
    ensures |r| == |s|
    ensures forall i :: 0 <= i < |s| ==> r[i] == s[|s| - 1 - i]
  {
    if s == [] then [] else Reverse(s[1..]) + [s[0]]
  }

  lemma ReverseTwice(s: seq<Byte>)
    ensures Reverse(Reverse(s)) == s
  {
  }

  lemma {:induction false} FixedRoundTrip(n: nat, w: nat)
    requires n < Span(w)
    ensures FromLittleEndian(LittleEndian(n, w)) == n
  {
    if w > 0 {
      FixedRoundTrip(n / 256, w - 1);
      assert LittleEndian(n, w)[1..] == LittleEndian(n / 256, w - 1);
    }
  }

  /** Of a number too large for `w` bytes, the remainder is left. */
  lemma FixedKeepsLow(n: nat, w: nat, little: bool)
    ensures FromFixed(FixedBytes(n, w, little), little) == n % Span(w)
  {
    hide Span, LittleEndian, FromFixed, Reverse;
    Remainder(n, Span(w));
    LowBytes(n, n / Span(w), n % Span(w), w);
    FixedBytesRoundTrip(n % Span(w), w, little);
  }

  lemma Remainder(n: nat, d: nat)
    requires d > 0
    ensures n == n / d * d + n % d && n % d < d
    ensures n % d <= n && (n % d == n <==> n < d)
  {
  }

  /** Whole multiples of `Span(w)` do not show in the low `w` bytes. */
  lemma {:induction false} LowBytes(n: nat, q: nat, m: nat, w: nat)
    requires n == q * Span(w) + m
    ensures LittleEndian(n, w) == LittleEndian(m, w)
  {
    if w > 0 {
      var p := Span(w - 1);
      assert n == 256 * (q * p) + m by {
        assert q * (256 * p) == 256 * (q * p);
      }
      assert n % 256 == m % 256 && n / 256 == q * p + m / 256;
      LowBytes(n / 256, q, m / 256, w - 1);
    }
  }

  lemma {:induction false} BytesRoundTrip(s: seq<Byte>)
    ensures LittleEndian(FromLittleEndian(s), |s|) == s
  {
    if s != [] {
      BytesRoundTrip(s[1..]);
      var n, m := FromLittleEndian(s), FromLittleEndian(s[1..]);
      assert n % 256 == s[0] as nat && n / 256 == m;
      assert LittleEndian(n, |s|) == [s[0]] + LittleEndian(m, |s| - 1);
    }
  }

  /** The integer whose `w` bytes are those of `n` the other way round. */
  function BitSwap(n: nat, w: nat): (m: nat)
    ensures m < Span(w)
  {
    FromLittleEndian(Reverse(LittleEndian(n, w)))
  }

  /** The `w` bytes of `n`, least significant first or last: an integer in the memory of a host of that
      byte order, or on a wire of that byte order. */
  function FixedBytes(n: nat, w: nat, little: bool): (s: seq<Byte>)
    ensures |s| == w
  {
    if little then LittleEndian(n, w) else Reverse(LittleEndian(n, w))
  }

  function FromFixed(s: seq<Byte>, little: bool): (n: nat)
    ensures n < Span(|s|)
  {
    FromLittleEndian(if little then s else Reverse(s))
  }

  lemma FixedBytesRoundTrip(n: nat, w: nat, little: bool)
    requires n < Span(w)
    ensures FromFixed(FixedBytes(n, w, little), little) == n
  {
    FixedRoundTrip(n, w);
    ReverseTwice(LittleEndian(n, w));
  }

  /** Byte `i` of an integer in `w` bytes: the digit of weight `256^i` when the least significant byte comes
      first, that of weight `256^(w - 1 - i)` when it comes last. */
  predicate Spelled(s: seq<Byte>, n: nat, w: nat, little: bool) {
    |s| == w && forall i :: 0 <= i < w ==> s[i] as nat == n / Span(if little then i else w - 1 - i) % 256
  }

  lemma {:induction false} LittleEndianByte(n: nat, w: nat, i: nat)
    requires i < w
    ensures LittleEndian(n, w)[i] as nat == n / Span(i) % 256
  {
    if i == 0 {
      assert Span(0) == 1;
    } else {
      LittleEndianByte(n / 256, w - 1, i - 1);
      DivideTwice(n, 256, Span(i - 1));
    }
  }

  lemma DivideTwice(n: nat, a: nat, b: nat)
    requires a > 0 && b > 0
    ensures a * b > 0 && n / a / b == n / (a * b)
  {
    var x := n / a;
    DigitsJoin(a, b, x / b, x % b, n % a);
    assert n == a * x + n % a && x == b * (x / b) + x % b;
    QuotientIs(n, a * b, x / b, a * (x % b) + n % a);
  }

  /** A quotient and two remainders make up a number. */
  lemma DigitsJoin(a: nat, b: nat, q: nat, r: nat, low: nat)
    requires low < a && r < b
    ensures a * (b * q + r) + low == a * b * q + (a * r + low)
    ensures a * r + low < a * b
  {
    MulMono(a, r, b);
    assert a * (b * q + r) == a * (b * q) + a * r;
    assert a * (b * q) == a * b * q;
  }

  lemma MulMono(d: nat, x: nat, y: nat)
    requires x < y
    ensures d * x + d <= d * y
  {
    assert d * y == d * x + d * (y - x);
    assert d * (y - x) == d * (y - x - 1) + d;
  }

  lemma QuotientIs(n: nat, d: nat, q: nat, r: nat)
    requires d > 0 && n == d * q + r && r < d
    ensures n / d == q
  {
    var e := n / d;
    assert n == d * e + n % d;
    if e < q {
      MulMono(d, e, q);
    } else if e > q {
      MulMono(d, q, e);
    }
  }

  /** The bytes themselves, in either order. */
  lemma FixedBytesSpell(n: nat, w: nat, little: bool)
    ensures Spelled(FixedBytes(n, w, little), n, w, little)
  {
    forall i: nat | i < w
      ensures FixedBytes(n, w, little)[i] as nat == n / Span(if little then i else w - 1 - i) % 256
    {
      LittleEndianByte(n, w, if little then i else w - 1 - i);
    }
  }

  /** Swapping just when the buffer's order is not the host's puts the buffer's order on the wire, on either host. */
  lemma SwapGivesWireOrder(n: nat, w: nat, little: bool, hostLittle: bool)
    ensures FixedBytes(if little != hostLittle then BitSwap(n, w) else n, w, hostLittle) == FixedBytes(n, w, little)
    ensures Spelled(FixedBytes(n, w, little), n, w, little)
  {
    FixedBytesSpell(n, w, little);
    BytesRoundTrip(Reverse(LittleEndian(n, w)));
    ReverseTwice(LittleEndian(n, w));
  }

  lemma SwapReadsOtherOrder(s: seq<Byte>, hostLittle: bool)
    ensures BitSwap(FromFixed(s, hostLittle), |s|) == FromFixed(s, !hostLittle)
  {
    BytesRoundTrip(s);
    BytesRoundTrip(Reverse(s));
    ReverseTwice(s);
  }

  /** The two's complement bits of `x`. */
  function TwosComplement(x: int, w: nat): nat
    requires -(Span(w) as int) <= x < Span(w)
  {
    if x < 0 then x + Span(w) else x
  }

  function FromTwosComplement(n: nat, w: nat): int {
    if 2 * n < Span(w) then n else n - Span(w)
  }

  lemma TwosComplementRoundTrip(x: int, w: nat)
    requires -(Span(w) as int) <= 2 * x < Span(w)
    ensures 0 <= TwosComplement(x, w) < Span(w) && FromTwosComplement(TwosComplement(x, w), w) == x
  {
  }

  // ---- Zigzag -------------------------------------------------------------------------------

  /** The number of values of a 64-bit word, or of a 32-bit one. */
  function Range(wide: bool): nat {
    if wide then 0x1_0000_0000_0000_0000 else 0x1_0000_0000
  }

  /** `x` xor the mask `v >> (bits - 1)`: an arithmetic shift leaves all ones for a negative `v`,
      which flips every bit, and zero otherwise. */
  function XorSign(x: nat, negative: bool, wide: bool): (r: nat)
    requires x < Range(wide)
    ensures r < Range(wide)
  {
    if negative then Range(wide) - 1 - x else x
  }

  /** `v` is the value of a signed word. */
  predicate IsSigned(v: int, wide: bool) {
    -(Range(wide) as int) <= 2 * v < Range(wide)
  }

  /** `(val << 1) ^ (val >> (bits - 1))`. */
  function EncodeZigzag(v: int, wide: bool): (u: nat)
    requires IsSigned(v, wide)
    ensures u < Range(wide)
  {
    XorSign((2 * v) % Range(wide), v < 0, wide)
  }

  /** `(val >> 1) ^ -(val & 1)`, read as a signed word. */
  function DecodeZigzag(u: nat, wide: bool): (v: int)
    requires u < Range(wide)
    ensures IsSigned(v, wide)
  {
    var word := XorSign(u / 2, u % 2 == 1, wide);
    if 2 * word < Range(wide) then word else word - Range(wide)
  }

  /** Small magnitudes of either sign get small codes: `2v`, or `-2v - 1`. */
  lemma ZigzagFolds(v: int, wide: bool)
    requires IsSigned(v, wide)
    ensures EncodeZigzag(v, wide) == if v >= 0 then 2 * v else -2 * v - 1
  {
    if wide {
      assert v < 0 ==> (2 * v) % 0x1_0000_0000_0000_0000 == 2 * v + 0x1_0000_0000_0000_0000;
    } else {
      assert v < 0 ==> (2 * v) % 0x1_0000_0000 == 2 * v + 0x1_0000_0000;
    }
  }

  lemma ZigzagRoundTrip(v: int, wide: bool)
    requires IsSigned(v, wide)
    ensures DecodeZigzag(EncodeZigzag(v, wide), wide) == v
  {
    ZigzagFolds(v, wide);
  }

  // ---- Varints ------------------------------------------------------------------------------

  /** `128^i`, the weight of the `i`-th seven-bit group. */
  function Weight(i: nat): (w: nat)
    ensures w > 0
  {
    if i == 0 then 1 else 128 * Weight(i - 1)
  }

  /** Unsigned LEB128 (section 7.6 of the DWARF 4 standard): seven bits a byte, low ones first, the
      top bit set on all bytes but the last. */
  function Leb(n: nat): (s: seq<Byte>)
    ensures |s| > 0
  {
    if n < 128 then [n as Byte] else [(n % 128 + 128) as Byte] + Leb(n / 128)
  }

  /** The number that a sequence of seven-bit groups stands for, in the standard's own terms. */
  function LebValue(s: seq<Byte>): nat {
    if s == [] then 0 else s[0] as nat % 128 + 128 * LebValue(s[1..])
  }

  /** How many bytes a number takes. */
  lemma {:induction false} LebLength(n: nat, k: nat)
    requires k > 0 && n < Weight(k)
    ensures |Leb(n)| <= k
  {
    if n >= 128 {
      LebLength(n / 128, k - 1);
    }
  }

  lemma {:induction false} LebValueBelow(s: seq<Byte>)
    ensures LebValue(s) < Weight(|s|)
  {
    if s != [] {
      LebValueBelow(s[1..]);
    }
  }

  lemma {:induction false} LebGroups(n: nat)
    ensures LebValue(Leb(n)) == n
    ensures forall i :: 0 <= i < |Leb(n)| ==> (Leb(n)[i] >= 128 <==> i < |Leb(n)| - 1)
    ensures n > 0 ==> Leb(n)[|Leb(n)| - 1] > 0
  {
    if n >= 128 {
      LebGroups(n / 128);
      assert Leb(n)[1..] == Leb(n / 128);
    }
  }

  /** Byte `i` carries the seven bits of weight `128^i`. */
  lemma {:induction false} LebGroup(n: nat, i: nat)
    requires i < |Leb(n)|
    ensures Leb(n)[i] as nat % 128 == n / Weight(i) % 128
  {
    if i > 0 {
      LebGroup(n / 128, i - 1);
      assert Leb(n)[1..] == Leb(n / 128);
      DivideTwice(n, 128, Weight(i - 1));
    }
  }

  /** Every byte but the last has its top bit set. */
  predicate Continued(s: seq<Byte>) {
    s != [] && forall i :: 0 <= i < |s| ==> (s[i] >= 128 <==> i < |s| - 1)
  }

  /** The encoding is the only sequence of its length with the right top bits that has the value. */
  lemma {:induction false} LebUnique(s: seq<Byte>)
    requires Continued(s) && |s| == |Leb(LebValue(s))|
    ensures s == Leb(LebValue(s))
  {
    var n := LebValue(s);
    LebGroups(n);
    if |s| == 1 {
      assert s[1..] == [];
    } else {
      assert s[0] >= 128 && n / 128 == LebValue(s[1..]) && n % 128 == s[0] as nat - 128;
      assert n >= 128;
      assert Leb(n)[1..] == Leb(n / 128);
      LebUnique(s[1..]);
    }
  }

  /** The encoding has the number for its value, the right top bits, and no redundant byte: no sequence with
      that value is shorter, and no other one as short has the right top bits. */
  lemma LebMeaning(n: nat)
    ensures LebValue(Leb(n)) == n && Continued(Leb(n))
    ensures forall i :: 0 <= i < |Leb(n)| ==> Leb(n)[i] as nat % 128 == n / Weight(i) % 128
    ensures forall s: seq<Byte> :: s != [] && LebValue(s) == n ==> |Leb(n)| <= |s|
    ensures forall s: seq<Byte> :: Continued(s) && |s| == |Leb(n)| && LebValue(s) == n ==> s == Leb(n)
  {
    LebGroups(n);
    forall i | 0 <= i < |Leb(n)|
      ensures Leb(n)[i] as nat % 128 == n / Weight(i) % 128
    {
      LebGroup(n, i);
    }
    forall s: seq<Byte> | s != [] && LebValue(s) == n
      ensures |Leb(n)| <= |s|
      ensures Continued(s) && |s| == |Leb(n)| ==> s == Leb(n)
    {
      LebValueBelow(s);
      LebLength(n, |s|);
      if Continued(s) && |s| == |Leb(n)| {
        LebUnique(s);
      }
    }
  }

  /** Five bytes take any 32-bit number, ten any 64-bit one. */
  lemma LebFits(n: nat)
    ensures n < Range(false) ==> |Leb(n)| <= 5
    ensures n < Range(true) ==> |Leb(n)| <= 10
  {
    assert Weight(2) == 0x4000 && Weight(4) == 0x4000 * 0x4000;
    assert Weight(5) == 0x8_0000_0000;
    assert Weight(7) == 128 * 128 * Weight(5);
    assert Weight(9) == 128 * 128 * Weight(7);
    if n < Range(false) {
      LebLength(n, 5);
    }
    if n < Range(true) {
      LebLength(n, 10);
    }
  }

  datatype Varint = Number(n: nat, used: nat) | Short | Overlong

  /** The reader's loop from its `i`-th byte on. It shifts by `7 * i` bits, which C++ defines for less
      than the width of the word only; what is shifted past the word is lost. The groups read so far
      stay below `Weight(i)`, so that or-ing the next one in adds it. */
  function UnLeb(s: seq<Byte>, i: nat, wide: bool, acc: nat): (r: Varint)
    ensures r.Number? ==> i < r.used <= i + |s|
    decreases |s|
  {
    if s == [] then Short
    else if i >= MaxBytes(wide) then Overlong
    else
      var grown := acc + Shifted(s[0], i, wide);
      if s[0] >= 128 then UnLeb(s[1..], i + 1, wide, grown) else Number(grown, i + 1)
  }

  function MaxBytes(wide: bool): nat { if wide then 10 else 5 }

  /** The payload of a byte shifted to place `i` of a word. */
  function Shifted(b: Byte, i: nat, wide: bool): nat {
    b as nat % 128 * Weight(i) % Range(wide)
  }

  /** A group shifted to place `i` has no bit below `Weight(i)` and fits the word: or-ing it to a number
      below `Weight(i)` is adding it, and the sum fits the word. */
  lemma ShiftedClear(b: Byte, i: nat, wide: bool) returns (h: nat)
    requires i < MaxBytes(wide)
    ensures h < 128 && Shifted(b, i, wide) == h * Weight(i)
    ensures Shifted(b, i, wide) + Weight(i) <= Range(wide)
    ensures Shifted(b, i, wide) + Weight(i) <= Weight(i + 1)
  {
    var g := b as nat % 128;
    h := if i == 4 && !wide then g % 16 else if i == 9 then g % 2 else g;
    var bound := if i == 4 && !wide then 16 else if i == 9 then 2 else 128;
    Weights();
    ShiftedGroup(g, i, wide);
    GroupBelow(h, bound, Weight(i));
    GroupBelow(h, 128, Weight(i));
  }

  lemma Weights()
    ensures Weight(0) == 1 && Weight(1) == 0x80 && Weight(2) == 0x4000 && Weight(3) == 0x20_0000
    ensures Weight(4) == 0x1000_0000 && Weight(5) == 0x8_0000_0000 && Weight(6) == 0x400_0000_0000
    ensures Weight(7) == 0x2_0000_0000_0000 && Weight(8) == 0x100_0000_0000_0000
    ensures Weight(9) == 0x8000_0000_0000_0000
  {
    assert Weight(2) == 0x4000;
    assert Weight(4) == 128 * 128 * Weight(2);
    assert Weight(6) == 128 * 128 * Weight(4);
    assert Weight(8) == 128 * 128 * Weight(6);
  }

  lemma ShiftedGroup(g: nat, i: nat, wide: bool)
    requires g < 128 && i < MaxBytes(wide)
    ensures g * Weight(i) % Range(wide)
            == (if i == 4 && !wide then g % 16 else if i == 9 then g % 2 else g) * Weight(i)
  {
    Weights();
  }

  lemma GroupBelow(h: nat, bound: nat, w: nat)
    requires h < bound
    ensures h * w + w <= bound * w
  {
    assert bound * w == h * w + (bound - h) * w;
    assert (bound - h) * w == (bound - h - 1) * w + w;
  }

  lemma GroupsAdd(n: nat, w: nat)
    ensures n % 128 * w + n / 128 * (128 * w) == n * w
    ensures n % 128 * w <= n * w
  {
    assert n == n % 128 + 128 * (n / 128);
    assert n * w == (n % 128 + 128 * (n / 128)) * w;
    assert (n / 128) * (128 * w) >= 0;
  }

  /** The low group of a number that fits the word, in its place. */
  lemma ShiftedLow(n: nat, b: Byte, i: nat, wide: bool)
    requires b as nat % 128 == n % 128 && n * Weight(i) < Range(wide)
    ensures Shifted(b, i, wide) + n / 128 * Weight(i + 1) == n * Weight(i)
  {
    GroupsAdd(n, Weight(i));
  }

  /** Decoding stops at the end of an encoding and yields the number, whatever follows. */
  lemma {:induction false} VarintRoundTrip(n: nat, rest: seq<Byte>, i: nat, wide: bool, acc: nat)
    requires i + |Leb(n)| <= MaxBytes(wide) && acc + n * Weight(i) < Range(wide)
    ensures UnLeb(Leb(n) + rest, i, wide, acc) == Number(acc + n * Weight(i), i + |Leb(n)|)
    decreases n
  {
    var s := Leb(n) + rest;
    if n < 128 {
      assert s[0] == n as Byte;
      ShiftedLow(n, s[0], i, wide);
      hide Weight, Shifted;
    } else {
      assert s[0] as nat == n % 128 + 128 && s[1..] == Leb(n / 128) + rest;
      ShiftedLow(n, s[0], i, wide);
      hide Weight, Shifted;
      VarintRoundTrip(n / 128, rest, i + 1, wide, acc + Shifted(s[0], i, wide));
    }
  }
}
