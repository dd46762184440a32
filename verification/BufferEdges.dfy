/** Call sequences on which the paged buffer departs from the flat byte sequence: each reaches the
    one case in which `SetPosition` leaves the cursor a page ahead. */
module BufferEdges {
  import opened Paging
  import opened PagedBuffer
  import opened Streams

  /** Rewinding a fresh one-page buffer before the first write: what is written afterwards goes to
      the second page, and reading it back yields the old bytes of the first. */
  method RewindBeforeWrite(b: ByteArray, buf: seq<Byte>) returns (back: seq<Byte>)
    requires b.Valid() && b.size == 0 && |b.pages| == 1 && 0 < |buf| <= b.base
    modifies b, b.Repr
    ensures b.Valid() && b.size == |buf| <= |old(b.Memory())|
    ensures back == old(b.Memory())[..|buf|]
  {
    hide ByteArray.Linked, ByteArray.Chained, Flatten;
    ghost var was := b.Memory();
    RewindFresh(b);
    assert b.Memory()[..|buf|] == was[..|buf|];
    WriteBehind(b, buf);
    var r := b.SetPosition(0);
    assert b.Contents() == was[..|buf|];
    r, back := b.Read(|buf|);
    assert b.Contents() == was[..|buf|];
  }

  /** A write with the cursor a page ahead of an empty content: the content becomes the bytes of the first page. */
  method WriteBehind(b: ByteArray, buf: seq<Byte>)
    requires b.Linked() && b.skew == 1 && b.position == b.size == 0 && b.capacity == 2 * b.base && |b.pages| == 2
    requires b.Address() == b.base && |b.Memory()| == 2 * b.base && 0 < |buf| <= b.base
    modifies b, b.Repr
    ensures b.Linked() && fresh(b.Repr - old(b.Repr)) && b.size == |buf| && |b.pages| >= 2
    ensures b.Contents() == old(b.Memory())[..|buf|]
  {
    hide ByteArray.Chained, ByteArray.Cursor, ByteArray.PageAt, Flatten, Start;
    ghost var was := b.Memory();
    b.Write(buf);
    assert forall i :: 0 <= i < |buf| ==> b.Memory()[i] == was[i];
    assert b.Contents() == was[..|buf|];
  }

  method RewindFresh(b: ByteArray)
    requires b.Valid() && b.size == 0 && |b.pages| == 1
    modifies b, b.Repr
    ensures b.Linked() && fresh(b.Repr - old(b.Repr))
    ensures b.skew == 1 && b.position == b.size == 0 && b.capacity == 2 * b.base && |b.pages| == 2
    ensures b.Address() == b.base == |old(b.Memory())| && old(b.Memory()) <= b.Memory()
    ensures |b.Memory()| == 2 * b.base
  {
    hide ByteArray.Chained, ByteArray.Cursor, ByteArray.PageAt, Flatten;
    b.Extent();
    b.Basics();
    var r := b.SetPosition(0);
    assert b.skew == 1;
    b.Extent();
    b.Basics();
    SecondPage(b);
    MemoryGrows(b, old(b.data));
  }

  lemma SecondPage(b: ByteArray)
    requires b.Linked() && b.skew == 1 && b.position == 0 && |b.pages| == 2
    ensures b.Address() == b.base && b.capacity == 2 * b.base && |b.Memory()| == 2 * b.base
  {
    b.AddressBound();
    StartIsProduct(1, b.base);
    StartIsProduct(2, b.base);
  }

  /** How much must arrive first for a receive of `len` bytes to end where the last page will start. */
  ghost function CutAt(b: ByteArray, len: nat): nat
    requires b.size <= b.capacity && b.base > 0 && !Uncut(b, len)
    reads b
  {
    Start(GrownPages(b, len), b.base) - b.base - b.size
  }

  /** One receive of `bytes`, of at most `len`: room is made and lent, the bytes fill it, size and position
      follow. `grown` is the memory once there is room. */
  method Arrive(b: ByteArray, len: nat, bytes: seq<Byte>) returns (ghost grown: seq<Byte>)
    requires b.Linked() && b.GrowthFits(len) && (b.curr == null ==> len > b.capacity - b.size)
    requires 0 < |bytes| <= len
    modifies b, b.Repr
    ensures b.Linked() && fresh(b.Repr - old(b.Repr))
    ensures b.size == old(b.size) + |bytes| && b.position == old(b.position) + |bytes|
    ensures old(b.Memory()) <= grown && old(b.Address()) + |bytes| <= |grown| && b.size <= |grown|
    ensures Splice(grown, old(b.Address()), bytes) <= b.Memory()
    ensures b.Contents() == Splice(grown, old(b.Address()), bytes)[..b.size]
    ensures old(b.skew) == 0 ==> |b.pages| == old(GrownPages(b, len)) + b.skew
    ensures old(b.skew) == 0 ==>
              b.skew == if b.position == b.size
                           && b.position + b.base == Start(old(GrownPages(b, len)), b.base) then 1 else 0
  {
    hide ByteArray.Chained, ByteArray.Cursor, ByteArray.PageAt, ByteArray.Contents, Flatten, Splice, Slices, Start;
    b.Extent();
    b.Basics();
    var vec, n := b.GetWriteBuffers([], len);
    b.Extent();
    b.Basics();
    grown := b.Memory();
    MemoryGrows(b, old(b.data));
    b.Scatter(vec, b.page, b.off, len, bytes);
    b.Extent();
    Commit(b, |bytes|);
  }

  lemma MemoryGrows(b: ByteArray, before: seq<seq<Byte>>)
    requires |before| <= |b.data| && before == b.data[..|before|]
    ensures Flatten(before) <= b.Memory()
  {
    FlattenPrefix(b.data, |before|);
    assert b.data[..|before|] == before;
  }

  /** The cut receive: what has arrived stands at the end of the content, and the cursor a page further on. */
  method CutFirst(b: ByteArray, len: nat, first: seq<Byte>)
    requires Appending(b, len) && !Uncut(b, len) && |first| == CutAt(b, len)
    modifies b, b.Repr
    ensures b.Linked() && fresh(b.Repr - old(b.Repr)) && b.skew == 1
    ensures b.position == b.size == old(b.size) + |first| == Start(|b.pages| - 2, b.base) && |b.pages| >= 2
    ensures |first| < len <= |first| + b.base
    ensures b.Contents() == old(b.Contents()) + first
  {
    CutFits(b, len);
    hide ByteArray.Chained, ByteArray.Cursor, ByteArray.PageAt, Flatten, Splice, Start;
    b.Extent();
    b.AddressBound();
    ghost var mem, size := b.Memory(), b.size;
    ghost var grown := Arrive(b, len, first);
    SpliceOverwrites(mem, grown, size, size, first);
    OverwriteAtEnd(mem[..size], first);
  }

  lemma CutFits(b: ByteArray, len: nat)
    requires Appending(b, len) && !Uncut(b, len)
    ensures b.GrowthFits(len) && (b.curr == null ==> len > b.capacity - b.size)
    ensures 0 < CutAt(b, len) < len <= CutAt(b, len) + b.base
    ensures GrownPages(b, len) > 0 && Start(GrownPages(b, len) - 1, b.base) == Start(GrownPages(b, len), b.base) - b.base
  {
    b.Extent();
    AddedSuffices(b.capacity - b.size, len, b.base);
    StartSum(|b.pages|, b.PagesAdded(len), b.base);
    StartStep(GrownPages(b, len) - 1, b.base);
  }

  /** The next one: its bytes land a page behind the end of the content, which takes in whatever stood there. */
  method CutSecond(b: ByteArray, second: seq<Byte>)
    requires b.Linked() && b.skew == 1 && b.position == b.size && |b.pages| >= 2
    requires b.size == Start(|b.pages| - 2, b.base) && 0 < |second| <= b.base
    modifies b, b.Repr
    ensures b.Linked() && b.position == b.size == old(b.size) + |second| <= |old(b.Memory())|
    ensures b.Contents() == old(b.Memory())[..b.size]
    ensures var at := old(b.size) + b.base;
            at + |second| <= |b.Memory()| && b.Memory()[at..at + |second|] == second
  {
    b.Extent();
    b.AddressBound();
    StartStep(|b.pages| - 2, b.base);
    StartStep(|b.pages| - 1, b.base);
    StartStep(0, b.base);
    hide ByteArray.Chained, ByteArray.Cursor, ByteArray.PageAt, Flatten, Splice, Start;
    ghost var at, mem := b.Address(), b.Memory();
    ghost var grown := Arrive(b, |second|, second);
    SpliceParts(grown, at, second);
  }

  /** Whenever a receive of `len` bytes can be cut where the last page will start, it goes wrong when it is:
      what arrives then is not the content's, but stands a page behind, and the content ends with the bytes
      that stood in memory before. */
  method CutReceive(b: ByteArray, len: nat, first: seq<Byte>, second: seq<Byte>) returns (ghost stale: seq<Byte>)
    requires Appending(b, len) && !Uncut(b, len)
    requires |first| == CutAt(b, len) && |first| + |second| == len
    modifies b, b.Repr
    ensures b.Linked() && b.position == b.size == old(b.size) + len && |stale| == |second| > 0
    ensures b.Contents() == old(b.Contents()) + first + stale
    ensures var at := old(b.size) + |first| + b.base;
            at + |second| <= |b.Memory()| && b.Memory()[at..at + |second|] == second
    ensures b.Contents() == old(b.Contents()) + (first + second) <==> stale == second
  {
    hide ByteArray.Linked, ByteArray.Chained, ByteArray.Contents, ByteArray.Memory, Flatten, Start, Uncut;
    ghost var before := b.Contents();
    CutFirst(b, len, first);
    TwoPagesBehind(b);
    ghost var mem, from := b.Memory(), b.size;
    stale := mem[from..from + |second|];
    CutSecond(b, second);
    TakeOn(mem, from, |second|);
    assert before + first + stale == before + (first + stale);
    StaleShows(before, first, stale, second);
  }

  lemma TwoPagesBehind(b: ByteArray)
    requires b.Linked() && |b.pages| >= 2 && b.size == Start(|b.pages| - 2, b.base)
    ensures b.size + 2 * b.base == |b.Memory()| && b.Contents() == b.Memory()[..b.size]
  {
    b.AddressBound();
    StartStep(|b.pages| - 2, b.base);
    StartStep(|b.pages| - 1, b.base);
  }

  lemma TakeOn(s: seq<Byte>, n: nat, k: nat)
    requires n + k <= |s|
    ensures s[..n + k] == s[..n] + s[n..n + k]
  {
  }

  lemma StaleShows(before: seq<Byte>, first: seq<Byte>, stale: seq<Byte>, second: seq<Byte>)
    ensures before + (first + stale) == before + (first + second) <==> stale == second
  {
    if before + (first + stale) == before + (first + second) {
      var n := |before| + |first|;
      assert stale == (before + (first + stale))[n..];
      assert second == (before + (first + second))[n..];
    }
  }
}
