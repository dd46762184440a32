/** The typed readers and writers of the paged buffer, proved against the wire formats: a list of
    mixed values comes back as it was written, for every page size. */
module BufferCodec {
  import opened Paging
  import opened PagedBuffer
  import opened WireCodec

  /** Fixed-width integers of `w` bytes, 32- and 64-bit varints (signed ones zigzagged), and strings
      behind a `w`-byte length. */
  datatype Value =
    | Unsigned(w: nat, n: nat)
    | Signed(w: nat, x: int)
    | VarUnsigned(wide: bool, n: nat)
    | VarSigned(wide: bool, x: int)
    | Text(w: nat, s: seq<Byte>)

  datatype Kind =
    | KUnsigned(w: nat)
    | KSigned(w: nat)
    | KVarUnsigned(wide: bool)
    | KVarSigned(wide: bool)
    | KText(w: nat)

  function KindOf(v: Value): Kind {
    match v
    case Unsigned(w, _) => KUnsigned(w)
    case Signed(w, _) => KSigned(w)
    case VarUnsigned(wide, _) => KVarUnsigned(wide)
    case VarSigned(wide, _) => KVarSigned(wide)
    case Text(w, _) => KText(w)
  }

  function Kinds(vs: seq<Value>): (ks: seq<Kind>)
    ensures |ks| == |vs|
    ensures forall i :: 0 <= i < |vs| ==> ks[i] == KindOf(vs[i])
  {
    if vs == [] then [] else [KindOf(vs[0])] + Kinds(vs[1..])
  }

  /** The value is one its C++ type can hold; a string fits its length prefix. */
  predicate Representable(v: Value) {
    match v
    case Unsigned(w, n) => w > 0 && n < Span(w)
    case Signed(w, x) => w > 0 && -(Span(w) as int) <= 2 * x < Span(w)
    case VarUnsigned(wide, n) => n < Range(wide)
    case VarSigned(wide, x) => IsSigned(x, wide)
    case Text(w, s) => w > 0 && |s| < Span(w)
  }

  function Encode(v: Value, little: bool): (s: seq<Byte>)
    requires Representable(v)
    ensures |s| > 0
  {
    match v
    case Unsigned(w, n) => FixedBytes(n, w, little)
    case Signed(w, x) => FixedBytes(TwosComplement(x, w), w, little)
    case VarUnsigned(_, n) => Leb(n)
    case VarSigned(wide, x) => Leb(EncodeZigzag(x, wide))
    case Text(w, s) => FixedBytes(|s|, w, little) + s
  }

  /** `e` is the number in seven-bit groups, low ones first, with continuation bits and no redundant byte. */
  ghost predicate Grouped(e: seq<Byte>, n: nat) {
    && Continued(e) && (forall i :: 0 <= i < |e| ==> e[i] as nat % 128 == n / Weight(i) % 128)
    && LebValue(e) == n && forall s: seq<Byte> :: s != [] && LebValue(s) == n ==> |e| <= |s|
  }

  /** The bytes of a value on the wire: integers digit by digit in the buffer's byte order, negative ones
      modulo `256^w`; varints in groups, signed ones folded; strings behind their length. */
  ghost predicate OnWire(e: seq<Byte>, v: Value, little: bool) {
    match v
    case Unsigned(w, n) => Spelled(e, n, w, little)
    case Signed(w, x) => Spelled(e, x % Span(w), w, little)
    case VarUnsigned(_, n) => Grouped(e, n)
    case VarSigned(_, x) => Grouped(e, if x >= 0 then 2 * x else -2 * x - 1)
    case Text(w, s) => |e| == w + |s| && Spelled(e[..w], |s|, w, little) && e[w..] == s
  }

  lemma EncodedOnWire(v: Value, little: bool)
    requires Representable(v)
    ensures OnWire(Encode(v, little), v, little)
  {
    hide FixedBytes, Leb, Span, Spelled, Grouped, EncodeZigzag, TwosComplement;
    match v
    case Unsigned(w, n) => FixedBytesSpell(n, w, little);
    case Signed(w, x) =>
      FixedBytesSpell(TwosComplement(x, w), w, little);
      ComplementIsRemainder(x, w);
    case VarUnsigned(_, n) => LebIsGrouped(n);
    case VarSigned(wide, x) =>
      ZigzagFolds(x, wide);
      LebIsGrouped(EncodeZigzag(x, wide));
    case Text(w, s) =>
      FixedBytesSpell(|s|, w, little);
      assert (FixedBytes(|s|, w, little) + s)[..w] == FixedBytes(|s|, w, little);
  }

  lemma LebIsGrouped(n: nat)
    ensures Grouped(Leb(n), n)
  {
    LebMeaning(n);
  }

  lemma ComplementIsRemainder(x: int, w: nat)
    requires -(Span(w) as int) <= 2 * x < Span(w)
    ensures TwosComplement(x, w) == x % Span(w)
  {
    hide Span;
    if x < 0 {
      NegativeRemainder(x, Span(w));
    }
  }

  lemma NegativeRemainder(x: int, d: nat)
    requires d > 0 && -(d as int) <= x < 0
    ensures x % d == x + d
  {
    var e := x / d;
    assert x == d * e + x % d;
    MultipleBounds(d, e);
  }

  lemma MultipleBounds(d: nat, e: int)
    ensures e >= 0 ==> d * e >= 0
    ensures e <= -2 ==> d * e <= -2 * d
    ensures e == -1 ==> d * e == -(d as int)
  {
  }

  predicate AllRepresentable(vs: seq<Value>) {
    forall i :: 0 <= i < |vs| ==> Representable(vs[i])
  }

  function EncodeAll(vs: seq<Value>, little: bool): (s: seq<Byte>)
    requires AllRepresentable(vs)
    ensures |s| >= |vs|
  {
    if vs == [] then [] else Encode(vs[0], little) + EncodeAll(vs[1..], little)
  }

  datatype Decoded = Got(v: Value, used: nat) | TooShort | TooLong

  /** What a reader makes of the unread bytes `s`, well formed or not. */
  function Decode(k: Kind, s: seq<Byte>, little: bool): (d: Decoded)
    ensures d.Got? ==> d.used <= |s|
  {
    match k
    case KUnsigned(w) =>
      if w > |s| then TooShort else Got(Unsigned(w, FromFixed(s[..w], little)), w)
    case KSigned(w) =>
      if w > |s| then TooShort else Got(Signed(w, FromTwosComplement(FromFixed(s[..w], little), w)), w)
    case KVarUnsigned(wide) => (
      match UnLeb(s, 0, wide, 0)
      case Number(n, used) => Got(VarUnsigned(wide, n), used)
      case Short => TooShort
      case Overlong => TooLong)
    case KVarSigned(wide) => (
      match UnLeb(s, 0, wide, 0)
      case Number(n, used) => Got(VarSigned(wide, DecodeZigzag(n % Range(wide), wide)), used)
      case Short => TooShort
      case Overlong => TooLong)
    case KText(w) =>
      if w > |s| then TooShort else
        var len := FromFixed(s[..w], little);
        if w + len > |s| then TooShort else Got(Text(w, s[w..w + len]), w + len)
  }

  /** Every encoding decodes to its value and to its own end, whatever follows it. */
  lemma DecodeEncode(v: Value, rest: seq<Byte>, little: bool)
    requires Representable(v)
    ensures Decode(KindOf(v), Encode(v, little) + rest, little) == Got(v, |Encode(v, little)|)
  {
    hide UnLeb, Leb, FixedBytes, FromFixed, Span, TwosComplement, FromTwosComplement, EncodeZigzag, DecodeZigzag;
    match v
    case Unsigned(w, n) => DecodeFixed(w, n, rest, little);
    case Signed(w, x) =>
      TwosComplementRoundTrip(x, w);
      DecodeFixed(w, TwosComplement(x, w), rest, little);
    case VarUnsigned(wide, n) => DecodeVarint(wide, n, rest);
    case VarSigned(wide, x) =>
      ZigzagRoundTrip(x, wide);
      DecodeVarint(wide, EncodeZigzag(x, wide), rest);
    case Text(w, s) => DecodeText(w, s, rest, little);
  }

  lemma DecodeFixed(w: nat, n: nat, rest: seq<Byte>, little: bool)
    requires n < Span(w)
    ensures FromFixed((FixedBytes(n, w, little) + rest)[..w], little) == n
  {
    assert (FixedBytes(n, w, little) + rest)[..w] == FixedBytes(n, w, little);
    FixedBytesRoundTrip(n, w, little);
  }

  lemma DecodeVarint(wide: bool, n: nat, rest: seq<Byte>)
    requires n < Range(wide)
    ensures UnLeb(Leb(n) + rest, 0, wide, 0) == Number(n, |Leb(n)|)
  {
    LebFits(n);
    VarintRoundTrip(n, rest, 0, wide, 0);
  }

  lemma DecodeText(w: nat, s: seq<Byte>, rest: seq<Byte>, little: bool)
    requires |s| < Span(w)
    ensures var e := FixedBytes(|s|, w, little) + s + rest;
            FromFixed(e[..w], little) == |s| && e[w..w + |s|] == s
  {
    var p := FixedBytes(|s|, w, little);
    FixedBytesRoundTrip(|s|, w, little);
    hide FixedBytes, FromFixed;
    assert (p + s + rest)[..w] == p;
  }

  /** What the string writers put out for a string of any length, and what the readers make of it: the
      length prefix keeps the low `w` bytes of the length, so the string comes back just when it fits
      them, and is cut otherwise. */
  lemma TextOfAnyLength(w: nat, s: seq<Byte>, rest: seq<Byte>, little: bool)
    ensures var e := FixedBytes(|s|, w, little) + s;
            && |s| % Span(w) <= |s|
            && Decode(KText(w), e + rest, little) == Got(Text(w, s[..|s| % Span(w)]), w + |s| % Span(w))
            && (Decode(KText(w), e + rest, little) == Got(Text(w, s), |e|) <==> |s| < Span(w))
  {
    hide FixedBytes, FromFixed, Span, Decode;
    FixedKeepsLow(|s|, w, little);
    Remainder(|s|, Span(w));
    TextCut(w, s, rest, little, |s| % Span(w));
    if |s| % Span(w) == |s| {
      assert s[..|s|] == s;
    }
  }

  lemma TextCut(w: nat, s: seq<Byte>, rest: seq<Byte>, little: bool, k: nat)
    requires FromFixed(FixedBytes(|s|, w, little), little) == k <= |s|
    ensures Decode(KText(w), FixedBytes(|s|, w, little) + s + rest, little) == Got(Text(w, s[..k]), w + k)
  {
    hide FixedBytes, FromFixed;
    var p := FixedBytes(|s|, w, little);
    var t := p + s + rest;
    assert t[..w] == p && t[w..w + k] == s[..k];
  }

  // ---- Writers ------------------------------------------------------------------------------

  /** Writes of `n` bytes in all find or make their room: the free space suffices, or stays a number
      that a signed 32-bit integer can hold. */
  ghost predicate Ample(b: ByteArray, n: nat)
    reads b, b.Repr
  {
    && b.Valid()
    && (n <= b.capacity - b.size
        || (b.capacity - b.size < INT_RANGE / 2
            && (n + b.base <= INT_RANGE / 2 || (b.position == b.size && b.base <= INT_RANGE / 2))))
  }

  /** Appending has left less than a page free; a fresh buffer has its first page. */
  ghost predicate Tight(b: ByteArray)
    reads b, b.Repr
  {
    && b.Valid() && b.position == b.size && b.capacity - b.size < INT_RANGE / 2
    && (b.capacity - b.size < b.base || (b.size == 0 && b.capacity == b.base))
  }

  /** One of the writes that make up a value of which `n` bytes are still to come. */
  method Put(b: ByteArray, buf: seq<Byte>, ghost n: nat)
    requires |buf| <= n && Ample(b, n)
    modifies b, b.Repr
    ensures old(Tight(b)) && b.base < INT_RANGE / 2 ==> Tight(b)
    ensures Ample(b, n - |buf|) && fresh(b.Repr - old(b.Repr)) && b.littleEndian == old(b.littleEndian)
    ensures b.position == old(b.position) + |buf|
    ensures b.Contents() == Overwrite(old(b.Contents()), old(b.position), buf)
  {
    hide ByteArray.Chained, ByteArray.Cursor, ByteArray.PageAt, Flatten;
    b.Write(buf);
  }

  method WriteFixed(b: ByteArray, hostLittle: bool, n: nat, w: nat, ghost room: nat)
    requires w <= room && Ample(b, room)
    modifies b, b.Repr
    ensures old(Tight(b)) && b.base < INT_RANGE / 2 ==> Tight(b)
    ensures Ample(b, room - w) && fresh(b.Repr - old(b.Repr)) && b.littleEndian == old(b.littleEndian)
    ensures b.position == old(b.position) + w
    ensures b.Contents() == Overwrite(old(b.Contents()), old(b.position), FixedBytes(n, w, b.littleEndian))
  {
    var val := n;
    if b.littleEndian != hostLittle {
      val := BitSwap(n, w);
    }
    SwapGivesWireOrder(n, w, b.littleEndian, hostLittle);
    Put(b, FixedBytes(val, w, hostLittle), room);
  }

  /** The byte array that `writeUint32` and `writeUint64` fill. */
  method VarintBytes(n: nat) returns (tem: seq<Byte>)
    ensures tem == Leb(n)
  {
    tem := [];
    var val := n;
    while val >= 128
      invariant tem + Leb(val) == Leb(n)
    {
      tem := tem + [(val % 128 + 128) as Byte];
      val := val / 128;
    }
    tem := tem + [val as Byte];
  }

  lemma OverwriteShows(c: seq<Byte>, p: nat, e: seq<Byte>)
    requires p <= |c|
    ensures p + |e| <= |Overwrite(c, p, e)| && Overwrite(c, p, e)[p..p + |e|] == e
  {
  }

  method WriteValue(b: ByteArray, hostLittle: bool, v: Value, ghost room: nat)
    requires Representable(v) && |Encode(v, b.littleEndian)| <= room && Ample(b, room)
    modifies b, b.Repr
    ensures old(Tight(b)) && b.base < INT_RANGE / 2 ==> Tight(b)
    ensures b.littleEndian == old(b.littleEndian) && fresh(b.Repr - old(b.Repr))
    ensures var e := Encode(v, b.littleEndian);
            && Ample(b, room - |e|)
            && b.position == old(b.position) + |e|
            && b.Contents() == Overwrite(old(b.Contents()), old(b.position), e)
    ensures OnWire(b.Contents()[old(b.position)..b.position], v, b.littleEndian)
  {
    hide ByteArray.Chained, ByteArray.Cursor, ByteArray.PageAt, Flatten, Start, FixedBytes, Leb, Overwrite, OnWire;
    EncodedOnWire(v, b.littleEndian);
    OverwriteShows(b.Contents(), b.position, Encode(v, b.littleEndian));
    match v
    case Unsigned(w, n) => WriteFixed(b, hostLittle, n, w, room);
    case Signed(w, x) => WriteFixed(b, hostLittle, TwosComplement(x, w), w, room);
    case VarUnsigned(_, n) =>
      var tem := VarintBytes(n);
      Put(b, tem, room);
    case VarSigned(wide, x) =>
      var tem := VarintBytes(EncodeZigzag(x, wide));
      Put(b, tem, room);
    case Text(w, s) =>
      OverwriteTwice(b.Contents(), b.position, FixedBytes(|s|, w, b.littleEndian), s);
      WriteFixed(b, hostLittle, |s|, w, room);
      Put(b, s, room - w);
  }

  method WriteAll(b: ByteArray, hostLittle: bool, vs: seq<Value>)
    requires AllRepresentable(vs) && Ample(b, |EncodeAll(vs, b.littleEndian)|)
    modifies b, b.Repr
    ensures old(Tight(b)) && b.base < INT_RANGE / 2 ==> Tight(b)
    ensures b.Valid() && b.littleEndian == old(b.littleEndian) && fresh(b.Repr - old(b.Repr))
    ensures var e := EncodeAll(vs, b.littleEndian);
            && b.position == old(b.position) + |e|
            && b.Contents() == Overwrite(old(b.Contents()), old(b.position), e)
  {
    hide ByteArray.Chained, ByteArray.Cursor, ByteArray.PageAt, Flatten, Start, Encode, Overwrite;
    ghost var little, before, from := b.littleEndian, b.Contents(), b.position;
    assert Overwrite(before, from, []) == before by {
      OverwriteNothing(before, from);
    }
    ghost var done := [];
    var i := 0;
    while i < |vs|
      invariant i <= |vs| && b.littleEndian == little && fresh(b.Repr - old(b.Repr))
      invariant done + EncodeAll(vs[i..], little) == EncodeAll(vs, little)
      invariant Ample(b, |EncodeAll(vs[i..], little)|)
      invariant old(Tight(b)) && b.base < INT_RANGE / 2 ==> Tight(b)
      invariant b.position == from + |done| && b.Contents() == Overwrite(before, from, done)
    {
      ghost var e, more := Encode(vs[i], little), EncodeAll(vs[i + 1..], little);
      assert vs[i..][1..] == vs[i + 1..];
      assert done + (e + more) == (done + e) + more;
      OverwriteTwice(before, from, done, e);
      WriteValue(b, hostLittle, vs[i], |e + more|);
      done := done + e;
      i := i + 1;
    }
    assert done == EncodeAll(vs, little) by {
      assert vs[i..] == [];
      assert done + [] == done;
    }
  }

  // ---- Readers ------------------------------------------------------------------------------

  /** How a typed read ends: with a value, or as C++ throws (`End`), or where C++ leaves it undefined:
      a shift past the word, or a null page. */
  datatype Reading = Value(v: Value) | End | Shift | Null

  method ReadFixed(b: ByteArray, hostLittle: bool, w: nat) returns (r: Outcome, n: nat)
    requires b.Valid() && w > 0
    modifies b`curr, b`page, b`off, b`position
    ensures b.Valid() && (r == Done || r == OutOfRange)
    ensures r == OutOfRange <==> w > b.size - old(b.position)
    ensures r == OutOfRange ==> b.position == old(b.position)
    ensures r == Done ==>
              && b.position == old(b.position) + w
              && n == FromFixed(b.Contents()[old(b.position)..b.position], b.littleEndian)
  {
    hide ByteArray.Chained, ByteArray.Cursor, ByteArray.PageAt, Flatten, Start;
    var v;
    r, v := b.Read(w);
    if r != Done {
      return r, 0;
    }
    n := FromFixed(v, hostLittle);
    if b.littleEndian != hostLittle {
      SwapReadsOtherOrder(v, hostLittle);
      n := BitSwap(n, w);
    }
  }

  /** The loop of `readUint32` and `readUint64`; or-ing a group in adds it, since `v` stays below its place. */
  method ReadVarint(b: ByteArray, wide: bool) returns (r: Reading, v: nat)
    requires b.Valid()
    modifies b`curr, b`page, b`off, b`position
    ensures b.Valid() && old(b.position) <= b.position
    ensures match UnLeb(b.Contents()[old(b.position)..], 0, wide, 0)
            case Number(n, used) => r == Value(VarUnsigned(wide, n)) && v == n < Range(wide)
                                    && b.position == old(b.position) + used
            case Short => r == End
            case Overlong => r == Shift
  {
    hide ByteArray.Chained, ByteArray.Cursor, ByteArray.PageAt, Flatten, Start, Shifted, Weight;
    ghost var s, from := b.Contents(), b.position;
    v := 0;
    var i := 0;
    while true
      invariant b.Valid() && b.Contents() == s && b.position == from + i && i <= MaxBytes(wide)
      invariant UnLeb(s[from..], 0, wide, 0) == UnLeb(s[from + i..], i, wide, v)
      invariant v < Weight(i) && v < Range(wide)
      decreases b.size - b.position
    {
      var ok, tem := b.Read(1);
      if ok != Done {
        return End, 0;
      }
      assert s[from + i..][0] == tem[0] && s[from + i..][1..] == s[from + i + 1..];
      if i >= MaxBytes(wide) {
        return Shift, 0;
      }
      ghost var h := ShiftedClear(tem[0], i, wide);
      v := v + Shifted(tem[0], i, wide);
      if tem[0] < 128 {
        return Value(VarUnsigned(wide, v)), v;
      }
      i := i + 1;
    }
  }

  /** What a typed read of unread bytes that decode as `d` must do: return the value and step past it,
      or fail as the bytes do. An empty string whose length ends where the last page does has no page
      left to read from. */
  ghost predicate Reads(d: Decoded, r: Reading, from: nat, to: nat, capacity: nat) {
    match d
    case Got(v, used) => if EmptyText(v) && from + used == capacity then r == Null else r == Value(v) && to == from + used
    case TooShort => r == End
    case TooLong => r == Shift
  }

  predicate EmptyText(v: Value) {
    v.Text? && v.s == []
  }

  method ReadInteger(b: ByteArray, hostLittle: bool, w: nat, signed: bool) returns (r: Reading)
    requires b.Valid() && w > 0
    modifies b`curr, b`page, b`off, b`position
    ensures b.Valid() && old(b.position) <= b.position
    ensures Reads(Decode(if signed then KSigned(w) else KUnsigned(w), b.Contents()[old(b.position)..], b.littleEndian),
                  r, old(b.position), b.position, b.capacity)
  {
    hide ByteArray.Chained, ByteArray.Cursor, ByteArray.PageAt, Flatten, Start, FromFixed, UnLeb, FromTwosComplement;
    ghost var s, from := b.Contents(), b.position;
    var ok, n := ReadFixed(b, hostLittle, w);
    if ok != Done {
      return End;
    }
    SliceOfTail(s, from, 0, w);
    r := Value(if signed then Signed(w, FromTwosComplement(n, w)) else Unsigned(w, n));
  }

  method ReadNumber(b: ByteArray, wide: bool, signed: bool) returns (r: Reading)
    requires b.Valid()
    modifies b`curr, b`page, b`off, b`position
    ensures b.Valid() && old(b.position) <= b.position
    ensures Reads(Decode(if signed then KVarSigned(wide) else KVarUnsigned(wide),
                         b.Contents()[old(b.position)..], b.littleEndian),
                  r, old(b.position), b.position, b.capacity)
  {
    hide ByteArray.Chained, ByteArray.Cursor, ByteArray.PageAt, Flatten, Start, FromFixed, UnLeb, DecodeZigzag;
    var n;
    r, n := ReadVarint(b, wide);
    if signed && r.Value? {
      r := Value(VarSigned(wide, DecodeZigzag(n, wide)));
    }
  }

  method ReadText(b: ByteArray, hostLittle: bool, w: nat) returns (r: Reading)
    requires b.Valid() && w > 0
    modifies b`curr, b`page, b`off, b`position
    ensures b.Valid() && old(b.position) <= b.position
    ensures Reads(Decode(KText(w), b.Contents()[old(b.position)..], b.littleEndian),
                  r, old(b.position), b.position, b.capacity)
  {
    hide ByteArray.Chained, ByteArray.Cursor, ByteArray.PageAt, Flatten, Start, FromFixed, UnLeb, DecodeZigzag;
    ghost var s, from := b.Contents(), b.position;
    var ok, len := ReadFixed(b, hostLittle, w);
    if ok != Done {
      return End;
    }
    SliceOfTail(s, from, 0, w);
    PageEnd(b);
    var text;
    ok, text := b.Read(len);
    if ok == OutOfRange {
      return End;
    }
    SliceOfTail(s, from, w, w + len);
    r := if ok == NullPage then Null else Value(Text(w, text));
  }

  lemma PageEnd(b: ByteArray)
    requires b.Valid()
    ensures b.curr == null <==> b.position == b.capacity
  {
    b.CursorPlace();
  }

  /** Every typed read agrees with `Decode` on the unread bytes, well formed or not. */
  method ReadValue(b: ByteArray, hostLittle: bool, k: Kind) returns (r: Reading)
    requires b.Valid() && Sized(k)
    modifies b`curr, b`page, b`off, b`position
    ensures b.Valid() && old(b.position) <= b.position
    ensures Reads(Decode(k, b.Contents()[old(b.position)..], b.littleEndian),
                  r, old(b.position), b.position, b.capacity)
  {
    hide ByteArray.Chained, ByteArray.Cursor, ByteArray.PageAt, Flatten, Start, Decode, Reads;
    match k
    case KUnsigned(w) => r := ReadInteger(b, hostLittle, w, false);
    case KSigned(w) => r := ReadInteger(b, hostLittle, w, true);
    case KVarUnsigned(wide) => r := ReadNumber(b, wide, false);
    case KVarSigned(wide) => r := ReadNumber(b, wide, true);
    case KText(w) => r := ReadText(b, hostLittle, w);
  }

  predicate Sized(k: Kind) {
    (k.KUnsigned? ==> k.w > 0) && (k.KSigned? ==> k.w > 0) && (k.KText? ==> k.w > 0)
  }

  // ---- Round trip ---------------------------------------------------------------------------

  /** The last value is an empty string. */
  predicate EndsEmpty(vs: seq<Value>) {
    vs != [] && EmptyText(vs[|vs| - 1])
  }

  /** Read one value that was written, with the encodings of `more` values behind it. */
  method ReadNext(b: ByteArray, hostLittle: bool, k: Kind, ghost v: Value, ghost more: seq<Byte>) returns (r: Reading)
    requires b.Valid() && Representable(v) && k == KindOf(v)
    requires b.Contents()[b.position..] == Encode(v, b.littleEndian) + more
    modifies b`curr, b`page, b`off, b`position
    ensures b.Valid()
    ensures r == if EmptyText(v) && more == [] && b.size == b.capacity then Null else Value(v)
    ensures r != Null ==> b.Contents()[b.position..] == more
  {
    hide ByteArray.Chained, ByteArray.Cursor, ByteArray.PageAt, Flatten, Start, Decode, Encode;
    ghost var s, from, e := b.Contents(), b.position, Encode(v, b.littleEndian);
    DecodeEncode(v, more, b.littleEndian);
    assert |s[from..]| == |e| + |more|;
    r := ReadValue(b, hostLittle, k);
    assert s[from + |e|..] == s[from..][|e|..] == more;
  }

  method ReadAll(b: ByteArray, hostLittle: bool, ks: seq<Kind>, ghost vs: seq<Value>) returns (r: seq<Value>, ok: bool)
    requires b.Linked() && (vs != [] ==> b.Valid()) && AllRepresentable(vs) && ks == Kinds(vs)
    requires b.Contents()[b.position..] == EncodeAll(vs, b.littleEndian)
    modifies b`curr, b`page, b`off, b`position
    ensures b.Linked()
    ensures ok <==> !(EndsEmpty(vs) && b.size == b.capacity)
    ensures ok ==> r == vs && b.position == b.size
  {
    hide ByteArray.Chained, ByteArray.Cursor, ByteArray.PageAt, Flatten, Start, Encode;
    ghost var little := b.littleEndian;
    r, ok := [], true;
    var i := 0;
    while i < |ks|
      invariant i <= |ks| && b.Linked() && (vs != [] ==> b.Valid()) && ok && r == vs[..i]
      invariant b.Contents()[b.position..] == EncodeAll(vs[i..], little)
      invariant i == |ks| ==> !(EndsEmpty(vs) && b.size == b.capacity)
    {
      ghost var more := EncodeAll(vs[i + 1..], little);
      assert vs[i..][1..] == vs[i + 1..];
      var v := ReadNext(b, hostLittle, ks[i], vs[i], more);
      if v == Null {
        return r, false;
      }
      r := r + [v.v];
      i := i + 1;
    }
  }

  /** Write a list of mixed values to a new buffer of any page size, rewind, and read as many values of
      the same kinds: the same list comes back with nothing left to read. The one exception is a final
      empty string that leaves the last page exactly full, on which the read dereferences a null page. */
  method RoundTrip(base: nat, little: bool, hostLittle: bool, vs: seq<Value>)
      returns (b: ByteArray, r: seq<Value>, ok: bool)
    requires base > 0 && AllRepresentable(vs)
    requires base < INT_RANGE / 2 || |EncodeAll(vs, little)| <= base
    ensures ok ==> b.Linked() && r == vs && b.position == b.size && b.Contents() == EncodeAll(vs, little)
    ensures base < INT_RANGE / 2 ==> (ok <==> !(EndsEmpty(vs) && |EncodeAll(vs, little)| % base == 0))
  {
    b := Written(base, little, hostLittle, vs);
    hide ByteArray.Chained, ByteArray.Cursor, ByteArray.PageAt, Flatten, Start, EncodeAll;
    var done := b.SetPosition(0);
    r, ok := ReadAll(b, hostLittle, Kinds(vs), vs);
  }

  method Written(base: nat, little: bool, hostLittle: bool, vs: seq<Value>) returns (b: ByteArray)
    requires base > 0 && AllRepresentable(vs)
    requires base < INT_RANGE / 2 || |EncodeAll(vs, little)| <= base
    ensures b.Valid() && fresh(b) && fresh(b.Repr) && b.base == base && b.littleEndian == little
    ensures b.Contents() == EncodeAll(vs, little)
    ensures base < INT_RANGE / 2 && vs != [] ==> (b.size == b.capacity <==> |EncodeAll(vs, little)| % base == 0)
    ensures vs != [] ==> b.size > 0
  {
    hide ByteArray.Chained, ByteArray.Cursor, ByteArray.PageAt, Flatten, Start;
    b := new ByteArray(base);
    b.Basics();
    b.SetLittleEndian(little);
    OverwriteAtEnd(b.Contents(), EncodeAll(vs, little));
    WriteAll(b, hostLittle, vs);
    if vs != [] && base < INT_RANGE / 2 {
      FullPage(b.size, b.capacity, |b.pages|, base);
    }
  }

  lemma FullPage(size: nat, capacity: nat, pages: nat, base: nat)
    requires base > 0 && capacity == Start(pages, base) && size <= capacity < size + base
    ensures size == capacity <==> size % base == 0
  {
    StartIsProduct(pages, base);
    Decompose(size, base);
    StartIsProduct(size / base, base);
    StartMonotone(size / base, size % base, pages, base);
    StartMonotone(pages, 0, size / base, base);
    if size == capacity {
      Locate(size, pages, 0, base);
    }
  }
}
