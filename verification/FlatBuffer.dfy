/** The flat byte sequence with a cursor that the paged buffer refines, over whole runs of calls. */
module FlatBuffer {
  import opened Paging
  import opened PagedBuffer

  /** The content, the cursor, and how many pages have been allotted. */
  datatype Flat = Flat(content: seq<Byte>, position: nat, pages: nat)

  datatype Op =
    | Put(bytes: seq<Byte>)
    | Take(n: nat)
    | Seek(v: nat)
    | Reset
    | Show
    | Lend(n: nat)
    | LendAt(n: nat, p: nat)
    | Reserve(n: nat)

  datatype Reply = Nothing | Bytes(b: seq<Byte>) | Refused | Fault

  ghost predicate WellFormed(f: Flat, base: nat) {
    base > 0 && f.pages > 0 && f.position <= |f.content| <= Start(f.pages, base)
  }

  ghost function Free(f: Flat, base: nat): nat
    requires WellFormed(f, base)
  {
    Start(f.pages, base) - |f.content|
  }

  /** The pages once `n` more bytes have been asked for. */
  ghost function Grown(f: Flat, base: nat, n: nat): nat
    requires WellFormed(f, base)
  {
    f.pages + Added(Free(f, base), n, base)
  }

  /** The call is none of those on which the buffer leaves the flat model: growth that a signed 32-bit
      free space misjudges, a seek to the end of the content where the last page starts, scatter
      elements for a null page, and positions past the content. */
  ghost predicate Allowed(f: Flat, base: nat, op: Op)
    requires WellFormed(f, base)
  {
    match op
    case Put(bytes) => Free(f, base) % INT_RANGE < INT_RANGE / 2 || |bytes| <= Free(f, base)
    case Seek(v) => !(v == |f.content| && v + base == Start(f.pages, base))
    case LendAt(_, p) => p <= |f.content|
    case Reserve(n) =>
      && (Free(f, base) % INT_RANGE < INT_RANGE / 2 || n <= Free(f, base))
      && (f.position == Start(f.pages, base) && n > 0 ==> n > Free(f, base))
    case _ => true
  }

  ghost function Step(f: Flat, base: nat, op: Op): (Flat, Reply)
    requires WellFormed(f, base)
  {
    var rest := |f.content| - f.position;
    match op
    case Put(bytes) =>
      (Flat(Overwrite(f.content, f.position, bytes), f.position + |bytes|, Grown(f, base, |bytes|)), Nothing)
    case Take(n) =>
      if n > rest then (f, Refused)
      else if n == 0 && f.position == Start(f.pages, base) then (f, Fault)
      else (f.(position := f.position + n), Bytes(f.content[f.position..f.position + n]))
    case Seek(v) => if v > |f.content| then (f, Refused) else (f.(position := v), Nothing)
    case Reset => (Flat([], 0, 1), Nothing)
    case Show => (f, Bytes(f.content[f.position..]))
    case Lend(n) => (f, Bytes(f.content[f.position..f.position + Min(n, rest)]))
    case LendAt(n, p) =>
      if p > |f.content| then (f, Fault) else (f, Bytes(f.content[p..p + Min(n, |f.content| - p)]))
    case Reserve(n) => (f.(pages := Grown(f, base, n)), Nothing)
  }

  lemma StepKeeps(f: Flat, base: nat, op: Op)
    requires WellFormed(f, base) && Allowed(f, base, op)
    ensures WellFormed(Step(f, base, op).0, base)
  {
    match op
    case Put(bytes) =>
      AddedSuffices(Free(f, base), |bytes|, base);
      StartSum(f.pages, Added(Free(f, base), |bytes|, base), base);
    case Reserve(n) =>
      StartSum(f.pages, Added(Free(f, base), n, base), base);
    case _ =>
      assert Start(1, base) == base;
  }

  /** All calls of the run are allowed when their turn comes. */
  ghost predicate Admissible(f: Flat, base: nat, ops: seq<Op>)
    requires WellFormed(f, base)
    decreases |ops|
  {
    ops == [] ||
    (Allowed(f, base, ops[0]) &&
     (StepKeeps(f, base, ops[0]); Admissible(Step(f, base, ops[0]).0, base, ops[1..])))
  }

  ghost function Run(f: Flat, base: nat, ops: seq<Op>): (r: (Flat, seq<Reply>))
    requires WellFormed(f, base) && Admissible(f, base, ops)
    ensures WellFormed(r.0, base) && |r.1| == |ops|
    decreases |ops|
  {
    if ops == [] then (f, []) else
      StepKeeps(f, base, ops[0]);
      var (g, r) := Step(f, base, ops[0]);
      var (h, rs) := Run(g, base, ops[1..]);
      (h, [r] + rs)
  }

  // ---- The buffer refines it ----------------------------------------------------------------

  ghost function FlatOf(b: ByteArray): Flat
    reads b, b.Repr
    requires b.Linked()
  {
    Flat(b.Contents(), b.position, |b.pages|)
  }

  ghost predicate Ready(b: ByteArray)
    reads b, b.Repr
  {
    b.Valid() && WellFormed(FlatOf(b), b.base)
  }

  lemma ValidIsReady(b: ByteArray)
    requires b.Valid()
    ensures Ready(b)
  {
  }

  method ApplyWrite(b: ByteArray, op: Op) returns (reply: Reply)
    requires Ready(b) && Allowed(FlatOf(b), b.base, op) && (op.Put? || op.Reserve? || op.Reset?)
    modifies b, b.Repr
    ensures Ready(b) && fresh(b.Repr - old(b.Repr))
    ensures (FlatOf(b), reply) == old(Step(FlatOf(b), b.base, op))
  {
    b.AddressBound();
    hide ByteArray.Chained, ByteArray.Cursor, ByteArray.PageAt, Flatten, Overwrite, Slices, Added;
    reply := Nothing;
    match op
    case Put(bytes) => b.Write(bytes);
    case Reset => b.Clear();
    case Reserve(n) =>
      var vec, total := b.GetWriteBuffers([], n);
    ValidIsReady(b);
  }

  method ApplySeek(b: ByteArray, v: nat) returns (reply: Reply)
    requires Ready(b) && Allowed(FlatOf(b), b.base, Seek(v))
    modifies b, b.Repr
    ensures Ready(b) && fresh(b.Repr - old(b.Repr))
    ensures (FlatOf(b), reply) == old(Step(FlatOf(b), b.base, Seek(v)))
  {
    hide ByteArray.Chained, ByteArray.Cursor, ByteArray.PageAt, Flatten;
    var r := b.SetPosition(v);
    reply := if r == Done then Nothing else Refused;
    ValidIsReady(b);
  }

  method ApplyTake(b: ByteArray, n: nat) returns (reply: Reply)
    requires Ready(b)
    modifies b`curr, b`page, b`off, b`position
    ensures Ready(b)
    ensures (FlatOf(b), reply) == old(Step(FlatOf(b), b.base, Take(n)))
  {
    b.AddressBound();
    hide ByteArray.Chained, ByteArray.Cursor, ByteArray.PageAt, Flatten;
    var r, out := b.Read(n);
    reply := if r == Done then Bytes(out) else if r == OutOfRange then Refused else Fault;
    ValidIsReady(b);
  }

  /** The calls that leave the buffer as it is. */
  method ApplyLend(b: ByteArray, n: nat) returns (reply: Reply)
    requires Ready(b)
    ensures (FlatOf(b), reply) == Step(FlatOf(b), b.base, Lend(n))
  {
    hide ByteArray.Chained, ByteArray.Cursor, ByteArray.PageAt, Flatten, Gather, Slices, Start, Added;
    var vec, total := b.GetReadBuffers([], n);
    assert vec[0..] == vec;
    reply := Bytes(Gather(vec));
  }

  method ApplyLendAt(b: ByteArray, n: nat, p: nat) returns (reply: Reply)
    requires Ready(b) && p <= |b.Contents()|
    ensures (FlatOf(b), reply) == Step(FlatOf(b), b.base, LendAt(n, p))
  {
    hide ByteArray.Chained, ByteArray.Cursor, ByteArray.PageAt, Flatten, Gather, Slices, Start, Added;
    var vec, total := b.GetReadBuffersAt([], n, p);
    assert vec[0..] == vec;
    reply := Bytes(Gather(vec));
  }

  method ApplyShow(b: ByteArray) returns (reply: Reply)
    requires Ready(b)
    ensures (FlatOf(b), reply) == Step(FlatOf(b), b.base, Show)
  {
    hide ByteArray.Chained, ByteArray.Cursor, ByteArray.PageAt, Flatten, Start, Added;
    var out := b.ToString();
    reply := Bytes(out);
  }

  lemma AllowedLendAt(f: Flat, base: nat, n: nat, p: nat)
    requires WellFormed(f, base) && Allowed(f, base, LendAt(n, p))
    ensures p <= |f.content|
  {
  }

  method Apply(b: ByteArray, op: Op) returns (reply: Reply)
    requires Ready(b) && Allowed(FlatOf(b), b.base, op)
    modifies b, b.Repr
    ensures Ready(b) && fresh(b.Repr - old(b.Repr))
    ensures (FlatOf(b), reply) == old(Step(FlatOf(b), b.base, op))
  {
    hide ByteArray.Chained, ByteArray.Cursor, ByteArray.PageAt, Flatten, Step, Allowed;
    match op
    case Seek(v) => reply := ApplySeek(b, v);
    case Take(n) => reply := ApplyTake(b, n);
    case Show => reply := ApplyShow(b);
    case Lend(n) => reply := ApplyLend(b, n);
    case LendAt(n, p) =>
      AllowedLendAt(FlatOf(b), b.base, n, p);
      reply := ApplyLendAt(b, n, p);
    case _ => reply := ApplyWrite(b, op);
  }

  /** Any run of admissible calls, on a buffer of any page size, answers as the flat sequence does and
      leaves the flat sequence's content and cursor. */
  method Replay(b: ByteArray, ops: seq<Op>) returns (replies: seq<Reply>)
    requires Ready(b) && Admissible(FlatOf(b), b.base, ops)
    modifies b, b.Repr
    ensures Ready(b) && fresh(b.Repr - old(b.Repr))
    ensures (FlatOf(b), replies) == old(Run(FlatOf(b), b.base, ops))
  {
    hide ByteArray.Chained, ByteArray.Cursor, ByteArray.PageAt, Flatten, Step, Allowed;
    ghost var end := Run(FlatOf(b), b.base, ops);
    replies := [];
    var i := 0;
    assert ops[0..] == ops;
    while i < |ops|
      invariant i <= |ops| && Ready(b) && fresh(b.Repr - old(b.Repr))
      invariant Admissible(FlatOf(b), b.base, ops[i..])
      invariant Run(FlatOf(b), b.base, ops[i..]).0 == end.0
      invariant replies == end.1[..i] && Run(FlatOf(b), b.base, ops[i..]).1 == end.1[i..]
    {
      assert ops[i..][0] == ops[i] && ops[i..][1..] == ops[i + 1..];
      var reply := Apply(b, ops[i]);
      replies := replies + [reply];
      i := i + 1;
    }
    assert ops[i..] == [];
    assert end.1[..i] == end.1;
  }

  // ---- Page sizes do not show ---------------------------------------------------------------

  /** No reply of the run is the null page that a zero-length read meets at full capacity. */
  ghost predicate Faultless(replies: seq<Reply>) {
    forall i :: 0 <= i < |replies| ==> replies[i] != Fault
  }

  /** Two buffers with pages of different sizes, put through the same calls, give the same replies and
      end with the same content and cursor. */
  lemma {:induction false} PageSizeDoesNotShow(f: Flat, g: Flat, base: nat, other: nat, ops: seq<Op>)
    requires WellFormed(f, base) && WellFormed(g, other)
    requires f.content == g.content && f.position == g.position
    requires Admissible(f, base, ops) && Admissible(g, other, ops)
    requires Faultless(Run(f, base, ops).1) && Faultless(Run(g, other, ops).1)
    ensures Run(f, base, ops).1 == Run(g, other, ops).1
    ensures Run(f, base, ops).0.content == Run(g, other, ops).0.content
    ensures Run(f, base, ops).0.position == Run(g, other, ops).0.position
    decreases |ops|
  {
    if ops != [] {
      var f1, g1 := Step(f, base, ops[0]), Step(g, other, ops[0]);
      StepKeeps(f, base, ops[0]);
      StepKeeps(g, other, ops[0]);
      assert Run(f, base, ops).1[0] == f1.1 && Run(g, other, ops).1[0] == g1.1;
      assert Run(f, base, ops).1[1..] == Run(f1.0, base, ops[1..]).1;
      assert Run(g, other, ops).1[1..] == Run(g1.0, other, ops[1..]).1;
      SameStep(f, g, base, other, ops[0]);
      PageSizeDoesNotShow(f1.0, g1.0, base, other, ops[1..]);
    }
  }

  lemma SameStep(f: Flat, g: Flat, base: nat, other: nat, op: Op)
    requires WellFormed(f, base) && WellFormed(g, other)
    requires f.content == g.content && f.position == g.position
    requires Step(f, base, op).1 != Fault && Step(g, other, op).1 != Fault
    ensures Step(f, base, op).1 == Step(g, other, op).1
    ensures Step(f, base, op).0.content == Step(g, other, op).0.content
    ensures Step(f, base, op).0.position == Step(g, other, op).0.position
  {
  }
}
