/** The paged byte buffer: a linked list of equal pages with a cursor split between a page
    pointer and a byte position, shown to behave like a flat byte sequence with one cursor. */
module PagedBuffer {
  import opened Paging

  const INT_RANGE := 0x1_0000_0000
  const SIZE_RANGE := 0x1_0000_0000_0000_0000

  datatype Outcome = Done | OutOfRange | NullPage | DivideByZero

  /** One scatter/gather element: `len` bytes of the array `ptr` from `off` on. */
  datatype IoVec = IoVec(ptr: array<Byte>, off: nat, len: nat)

  function Min(a: nat, b: nat): nat { if a <= b then a else b }

  function Max(a: nat, b: nat): nat { if a <= b then b else a }

  /** Subtraction that stops at zero. */
  function Sub0(a: nat, b: nat): nat { if b <= a then a - b else 0 }

  /** Unsigned 64-bit subtraction. */
  function Sub64(a: nat, b: nat): nat {
    if b <= a then a - b else (a + SIZE_RANGE * (b / SIZE_RANGE + 1) - b) % SIZE_RANGE
  }

  /** On 64-bit numbers a difference below zero comes out larger by 2^64. */
  lemma Sub64Wraps(a: nat, b: nat)
    requires a < 0x1_0000_0000_0000_0000 && b < 0x1_0000_0000_0000_0000
    ensures Sub64(a, b) == if b <= a then a - b else a + 0x1_0000_0000_0000_0000 - b
  {
    assert b / SIZE_RANGE == 0;
  }

  /** What `free` reads as after a trip through a signed 32-bit variable and back to an
      unsigned 64-bit one: truncated, and huge once the sign bit is set. */
  function ThroughInt(free: nat): nat {
    var low := free % INT_RANGE;
    if low < INT_RANGE / 2 then low else SIZE_RANGE - (INT_RANGE - low)
  }

  lemma CeilingCovers(n: nat, base: nat)
    requires base > 0 && n > 0
    ensures (n + base - 1) / base > 0
    ensures n <= ((n + base - 1) / base) * base < n + base
  {
    var q := (n + base - 1) / base;
    assert n + base - 1 == q * base + (n + base - 1) % base;
  }

  function Added(free: nat, n: nat, base: nat): nat
    requires base > 0
  {
    var remain := ThroughInt(free);
    if n == 0 || remain >= n then 0 else (n - remain + base - 1) / base
  }

  lemma AddedSuffices(free: nat, n: nat, base: nat)
    requires base > 0
    ensures free % INT_RANGE < INT_RANGE / 2 || n <= free ==> n <= free + Start(Added(free, n, base), base)
    ensures !(free % INT_RANGE < INT_RANGE / 2 || n <= free) && n < SIZE_RANGE - INT_RANGE ==>
      Added(free, n, base) == 0
    ensures free < INT_RANGE / 2 ==> free + Start(Added(free, n, base), base) <= Max(free, n + base - 1)
  {
    var remain := ThroughInt(free);
    StartIsProduct(Added(free, n, base), base);
    if n > 0 && remain < n {
      CeilingCovers(n - remain, base);
    }
  }

  class Node {
    const ptr: array<Byte>
    var next: Node?

    constructor (s: nat)
      ensures fresh(ptr) && ptr.Length == s && next == null
    {
      ptr := new Byte[s];
      next := null;
    }
  }

  // ---- Scatter/gather lists -----------------------------------------------------------------

  /** The elements that cover `n` bytes from offset `off` of page `k` on. */
  ghost function Slices(pages: seq<Node>, base: nat, k: nat, off: nat, n: nat): seq<IoVec>
    requires off < base
    decreases n
  {
    if n == 0 || k >= |pages| then [] else
      var m := Min(base - off, n);
      [IoVec(pages[k].ptr, off, m)] + Slices(pages, base, k + 1, 0, n - m)
  }

  function Total(vec: seq<IoVec>): nat {
    if vec == [] then 0 else vec[0].len + Total(vec[1..])
  }

  predicate InBounds(vec: seq<IoVec>) {
    forall i :: 0 <= i < |vec| ==> vec[i].off + vec[i].len <= vec[i].ptr.Length
  }

  /** The bytes a gathering send takes from the list. */
  function Gather(vec: seq<IoVec>): (bytes: seq<Byte>)
    requires InBounds(vec)
    ensures |bytes| == Total(vec)
    reads set i | 0 <= i < |vec| :: vec[i].ptr
  {
    if vec == [] then [] else vec[0].ptr[vec[0].off..vec[0].off + vec[0].len] + Gather(vec[1..])
  }

  /** Where the `j`-th byte of the list lives: an array and an index into it. */
  ghost function Locus(vec: seq<IoVec>, j: nat): (array<Byte>, nat)
    requires j < Total(vec)
  {
    if j < vec[0].len then (vec[0].ptr, vec[0].off + j) else Locus(vec[1..], j - vec[0].len)
  }

  /** The page of byte `at` of the flat memory. */
  ghost function PageOf(at: nat, base: nat): nat
    requires base > 0
  {
    at / base
  }

  /** Byte `j` of the list is byte `a + j` of the flat memory, `a` being where the list starts. */
  lemma {:induction false} SlicesLocus(pages: seq<Node>, base: nat, k: nat, off: nat, n: nat, j: nat)
    requires off < base && Start(k, base) + off + n <= Start(|pages|, base)
    ensures Total(Slices(pages, base, k, off, n)) == n
    ensures j < n ==>
              var at := Start(k, base) + off + j;
              var q := PageOf(at, base);
              q < |pages| && Start(q, base) <= at
              && Locus(Slices(pages, base, k, off, n), j) == (pages[q].ptr, at - Start(q, base))
    decreases n
  {
    if n > 0 {
      StartMonotone(k, off, |pages|, base);
      var m := Min(base - off, n);
      SlicesLocus(pages, base, k + 1, 0, n - m, if j < m then 0 else j - m);
      if j < m {
        Locate(Start(k, base) + off + j, k, off + j, base);
      }
    }
  }

  /** A list for pages with arrays of their own names no byte twice. */
  lemma SlicesDisjoint(pages: seq<Node>, base: nat, k: nat, off: nat, n: nat, i: nat, j: nat)
    requires forall x, y :: 0 <= x < y < |pages| ==> pages[x].ptr != pages[y].ptr
    requires off < base && Start(k, base) + off + n <= Start(|pages|, base)
    requires i < n && j < n && i != j
    ensures Total(Slices(pages, base, k, off, n)) == n
    ensures Locus(Slices(pages, base, k, off, n), i) != Locus(Slices(pages, base, k, off, n), j)
  {
    hide Slices, Locus, Total, Start, PageOf;
    SlicesLocus(pages, base, k, off, n, i);
    SlicesLocus(pages, base, k, off, n, j);
    var x, y := Start(k, base) + off + i, Start(k, base) + off + j;
    var p, q := PageOf(x, base), PageOf(y, base);
    if p != q {
      assert pages[p].ptr != pages[q].ptr;
    }
  }

  /** A list stays the list when pages are linked behind those it covers. */
  lemma {:induction false} SlicesGrow(pages: seq<Node>, more: seq<Node>, base: nat, k: nat, off: nat, n: nat)
    requires off < base && Start(k, base) + off + n <= Start(|pages|, base) && pages <= more
    ensures Slices(more, base, k, off, n) == Slices(pages, base, k, off, n)
    decreases n
  {
    if n > 0 {
      StartMonotone(k, off, |pages|, base);
      SlicesGrow(pages, more, base, k + 1, 0, n - Min(base - off, n));
    }
  }

  /** One more element, on the page where the list ends, lengthens the list. */
  lemma {:induction false} SlicesSnoc(pages: seq<Node>, base: nat, k: nat, off: nat, n: nat, i: nat, at: nat, m: nat)
    requires off < base && Start(k, base) + off + n == Start(i, base) + at
    requires i < |pages| && 0 < m && at + m <= base && (at == 0 || n == 0)
    ensures Slices(pages, base, k, off, n + m) == Slices(pages, base, k, off, n) + [IoVec(pages[i].ptr, at, m)]
    decreases n
  {
    if n == 0 {
      StartMonotone(k, off, i, base);
      StartMonotone(i, at, k, base);
    } else {
      StartMonotone(k, off, i, base);
      StartMonotone(k + 1, 0, i, base);
      var c := Min(base - off, n);
      SlicesSnoc(pages, base, k + 1, 0, n - c, i, at, m);
    }
  }

  class ByteArray {
    const base: nat
    var root: Node
    var curr: Node?
    var capacity: nat
    var position: nat
    var size: nat
    var littleEndian: bool

    /** The pages in list order, and the bytes they hold. */
    ghost var pages: seq<Node>
    ghost var data: seq<seq<Byte>>
    /** `curr` is page number `page`, and the cursor stands `off` bytes into it. */
    ghost var page: nat
    ghost var off: nat
    /** How many pages `curr` is ahead of `position`: 0 but for one case of `SetPosition`. */
    ghost var skew: nat
    /** The nodes and their arrays; the buffer object itself is not among them. */
    ghost var Repr: set<object>

    ghost function PageAt(i: nat): Node?
      reads this`pages
    {
      if i < |pages| then pages[i] else null
    }

    ghost predicate Chained()
      reads this`root, this`pages, this`data, this`Repr, Repr
    {
      && base > 0
      && this !in Repr
      && |pages| > 0 && pages[0] == root
      && |data| == |pages| && Uniform(data, base)
      && (forall i :: 0 <= i < |pages| ==>
            pages[i] in Repr && pages[i].ptr in Repr && pages[i].ptr.Length == base)
      && (forall i :: 0 <= i < |pages| ==> pages[i].ptr[..] == data[i])
      && (forall i {:trigger pages[i].next} :: 0 <= i < |pages| ==> pages[i].next == PageAt(i + 1))
      && (forall i, j :: 0 <= i < j < |pages| ==> pages[i] != pages[j] && pages[i].ptr != pages[j].ptr)
    }

    ghost predicate Linked()
      reads this, Repr
    {
      && Chained()
      && capacity == Start(|pages|, base)
      && position <= size <= capacity
      && Cursor()
    }

    ghost predicate Cursor()
      reads this`curr, this`pages, this`page, this`off, this`skew, this`position
    {
      && page <= |pages| && curr == PageAt(page) && (page == |pages| ==> off == 0)
      && off < base && Start(page, base) + off == position + Start(skew, base)
    }

    /** The buffer is well formed and its cursor addresses byte `position`. */
    ghost predicate Valid()
      reads this, Repr
    {
      Linked() && skew == 0
    }

    ghost function Memory(): seq<Byte>
      reads this`data
    {
      Flatten(data)
    }

    /** Where in `Memory` the next byte goes. */
    ghost function Address(): nat
      reads this`page, this`off
    {
      Start(page, base) + off
    }

    /** The bytes written so far. */
    ghost function Contents(): (c: seq<Byte>)
      reads this, Repr
      requires Linked()
      ensures |c| == size
    {
      FlattenLength(data, base);
      Memory()[..size]
    }

    /** Growing for `n` more bytes works out: the free space fits a signed 32-bit integer, or suffices. */
    ghost predicate GrowthFits(n: nat)
      reads this
      requires size <= capacity
    {
      (capacity - size) % INT_RANGE < INT_RANGE / 2 || n <= capacity - size
    }

    constructor (baseSize: nat)
      requires baseSize > 0
      ensures Valid() && fresh(Repr)
      ensures base == baseSize && |pages| == 1 && capacity == base
      ensures Contents() == [] && position == size == 0 && !littleEndian
    {
      base := baseSize;
      var first := new Node(baseSize);
      root, curr := first, first;
      capacity, position, size := baseSize, 0, 0;
      littleEndian := false;
      pages, data := [first], [first.ptr[..]];
      page, off, skew := 0, 0, 0;
      Repr := {first, first.ptr};
    }

    /** `tail->next = new Node`: link one more page behind the last. */
    method AppendPage(tail: Node)
      requires Chained() && tail == pages[|pages| - 1]
      modifies tail`next, this`pages, this`data, this`Repr
      ensures Chained() && fresh(Repr - old(Repr)) && old(Repr) <= Repr
      ensures |pages| == |old(pages)| + 1 && pages[..|old(pages)|] == old(pages)
      ensures data[..|old(data)|] == old(data)
      ensures tail.next == pages[|old(pages)|] && fresh(tail.next)
    {
      var page := new Node(base);
      tail.next := page;
      pages, data := pages + [page], data + [page.ptr[..]];
      Repr := Repr + {page, page.ptr};
    }

    /** Pages asked of the allocator when `n` more bytes are wanted. */
    ghost function PagesAdded(n: nat): (count: nat)
      reads this
      requires size <= capacity && base > 0
    {
      Added(capacity - size, n, base)
    }

    /** Walk to the end of the list, from `curr` or, when that is null, from `root`. */
    method FindTail() returns (tail: Node)
      requires Linked()
      ensures tail == pages[|pages| - 1]
    {
      tail := if curr != null then curr else root;
      ghost var t := if curr != null then page else 0;
      while tail.next != null
        invariant t < |pages| && tail == pages[t]
        decreases |pages| - t
      {
        t := t + 1;
        tail := tail.next;
      }
    }

    method AppendPages(last: Node, count: nat)
      requires Chained() && last == pages[|pages| - 1]
      modifies last`next, this`pages, this`data, this`Repr
      ensures Chained() && fresh(Repr - old(Repr)) && old(Repr) <= Repr
      ensures |pages| == |old(pages)| + count
      ensures pages[..|old(pages)|] == old(pages) && data[..|old(data)|] == old(data)
    {
      var tail, left := last, count;
      while left > 0
        invariant 0 <= left <= count && |pages| == |old(pages)| + (count - left)
        invariant Chained() && fresh(Repr - old(Repr)) && old(Repr) <= Repr
        invariant tail == pages[|pages| - 1] && (tail == last || fresh(tail))
        invariant pages[..|old(pages)|] == old(pages) && data[..|old(data)|] == old(data)
      {
        AppendPage(tail);
        tail := tail.next;
        left := left - 1;
      }
    }

    /** Append `count` pages, and give a cursor that ran off the end the first of them. */
    method Grow(count: nat)
      requires Linked() && count > 0
      modifies this, Repr
      ensures Linked() && fresh(Repr - old(Repr)) && old(Repr) <= Repr
      ensures |pages| == |old(pages)| + count && capacity == old(capacity) + Start(count, base)
      ensures pages[..|old(pages)|] == old(pages) && data[..|old(data)|] == old(data)
      ensures position == old(position) && size == old(size)
      ensures page == old(page) && off == old(off) && skew == old(skew)
      ensures root == old(root) && littleEndian == old(littleEndian)
    {
      hide Flatten;
      var back := FindTail();
      ghost var was := pages;
      AppendPages(back, count);
      Next(|was| - 1);
      hide Chained;
      assert pages[|was| - 1] == pages[..|was|][|was| - 1] == back;
      capacity := capacity + count * base;
      assert capacity == Start(|pages|, base) == Start(|was|, base) + Start(count, base) by {
        StartSum(|was|, count, base);
        StartIsProduct(count, base);
      }
      if curr == null {
        curr := back.next;
        assert curr == PageAt(|was|);
      } else {
        assert curr == was[page] == pages[..|was|][page];
      }
    }

    method AddCapacity(n: nat)
      requires Linked()
      modifies this, Repr
      ensures Linked() && fresh(Repr - old(Repr)) && old(Repr) <= Repr
      ensures |pages| == |old(pages)| + old(PagesAdded(n))
      ensures pages[..|old(pages)|] == old(pages) && data[..|old(data)|] == old(data)
      ensures position == old(position) && size == old(size)
      ensures page == old(page) && off == old(off) && skew == old(skew)
      ensures root == old(root) && littleEndian == old(littleEndian)
      ensures old(capacity) <= capacity
      ensures old(GrowthFits(n)) ==> n <= capacity - size
      ensures !old(GrowthFits(n)) && n < SIZE_RANGE - INT_RANGE ==> n > capacity - size
      ensures old(capacity - size) < INT_RANGE / 2 ==> capacity - size <= Max(old(capacity - size), n + base - 1)
    {
      var remain := ThroughInt(capacity - size);
      AddedSuffices(capacity - size, n, base);
      if n == 0 || remain >= n {
        return;
      }
      var count := (n - remain + base - 1) / base;
      CeilingCovers(n - remain, base);
      Grow(count);
    }

    /** `curr` is the page of `position` (`skew` pages on), or null just past the last page. */
    lemma CursorPlace()
      requires Linked()
      ensures page == position / base + skew && off == position % base
      ensures skew == 0 ==> Address() == position
      ensures skew == 0 ==> (curr == null <==> position == capacity)
    {
      StartMonotone(page, off, skew, base);
      StartSum(skew, page - skew, base);
      Locate(position, page - skew, off, base);
      StartMonotone(page, off, |pages|, base);
    }

    lemma Basics()
      requires Chained()
      ensures this !in Repr && base > 0 && |pages| > 0 && pages[0] == root && |data| == |pages| && Uniform(data, base)
      ensures |Memory()| == Start(|pages|, base)
      ensures forall i :: 0 <= i < |pages| ==> pages[i].ptr.Length == base
    {
      FlattenLength(data, base);
    }

    lemma StartOfCursor()
      requires Chained() && Cursor() && curr != null
      ensures page < |pages| && curr.ptr.Length == base && off < base
    {
    }

    /** The page under the cursor, while it is not past the last one. */
    lemma CurrentPage()
      requires Chained() && Cursor() && Address() < Start(|pages|, base)
      ensures page < |pages| && off < base && curr != null && curr == pages[page]
      ensures curr.ptr.Length == base && curr.ptr in Repr
    {
      StartMonotone(page, off, |pages|, base);
    }

    lemma Next(i: nat)
      requires Chained() && i < |pages|
      ensures pages[i].next == PageAt(i + 1)
    {
    }

    lemma NextOrEnd(i: nat)
      requires Chained() && i < |pages|
      ensures if i + 1 < |pages| then pages[i].next == pages[i + 1] else pages[i].next == null
    {
      Next(i);
    }

    lemma AddressBound()
      requires Linked()
      ensures |Memory()| == capacity && Address() <= capacity
      ensures skew == 0 ==> Address() == position
      ensures page == |pages| <==> Address() == capacity
    {
      FlattenLength(data, base);
      StartMonotone(page, off, |pages|, base);
    }

    /** `m_position % m_baseSize`. */
    method Offset() returns (npos: nat)
      requires Linked()
      ensures npos == off
    {
      CursorPlace();
      npos := position % base;
    }

    /** Room for a write of `n` bytes at the cursor. */
    ghost predicate Room(n: nat)
      reads this, Repr
      requires Linked()
    {
      if skew == 0 then GrowthFits(n) else n <= capacity - size && Address() + n <= capacity
    }

    /** `memcpy(ptr + npos, chunk, chunk.size())` into page `k`. */
    method CopyIn(ptr: array<Byte>, ghost k: nat, npos: nat, chunk: seq<Byte>)
      requires Chained() && k < |pages| && ptr == pages[k].ptr && npos + |chunk| <= base
      modifies ptr, this`data
      ensures Chained()
      ensures Start(k, base) + npos + |chunk| <= |old(Memory())|
      ensures |data| == |old(data)| && Memory() == Splice(old(Memory()), Start(k, base) + npos, chunk)
    {
      forall j | 0 <= j < |chunk| {
        ptr[npos + j] := chunk[j];
      }
      SpliceParts(data[k], npos, chunk);
      data := data[k := Splice(data[k], npos, chunk)];
      assert ptr[..] == data[k];
      FlattenUpdate(old(data), base, k, npos, chunk);
    }

    /** Copy `chunk` to the cursor, within the current page, and step to the next page once this one is full. */
    method PutChunk(npos: nat, chunk: seq<Byte>)
      requires Chained() && Cursor() && page < |pages| && npos == off && npos + |chunk| <= base
      modifies curr.ptr, this`curr, this`page, this`off, this`position, this`data
      ensures Chained() && Cursor() && |data| == |old(data)|
      ensures position == old(position) + |chunk| && Address() == old(Address()) + |chunk|
      ensures old(Address()) + |chunk| <= |old(Memory())|
      ensures Memory() == Splice(old(Memory()), old(Address()), chunk)
      ensures if npos + |chunk| == base then page == old(page) + 1 && off == 0
              else page == old(page) && off == npos + |chunk|
    {
      hide Splice, Flatten;
      CopyIn(curr.ptr, page, npos, chunk);
      position := position + |chunk|;
      if curr.ptr.Length == npos + |chunk| {
        curr := curr.next;
        page, off := page + 1, 0;
      } else {
        off := off + |chunk|;
      }
    }

    /** The page-crossing loop of `Write`, once there is room. */
    method CopyAcross(buf: seq<Byte>)
      requires Linked() && buf != [] && Address() + |buf| <= capacity
      modifies Repr, this`curr, this`page, this`off, this`position, this`data
      ensures Chained() && Cursor()
      ensures position == old(position) + |buf| && Address() == old(Address()) + |buf|
      ensures old(Address()) + |buf| <= |old(Memory())|
      ensures Memory() == Splice(old(Memory()), old(Address()), buf)
    {
      hide Splice, Flatten, Chained, Start, Cursor, PageAt;
      ghost var mem, addr := Memory(), Address();
      AddressBound();
      Basics();
      CurrentPage();
      SpliceNothing(mem, addr, buf);
      var npos := Offset();
      var ncap := curr.ptr.Length - npos;
      var n, bpos := |buf|, 0;
      while n > 0
        invariant 0 <= bpos <= |buf| && n == |buf| - bpos
        invariant Chained() && Cursor() && |pages| == |old(pages)| && position == old(position) + bpos
        invariant n > 0 ==> npos == off && ncap == base - npos && off < base
        invariant Address() == addr + bpos
        invariant Memory() == Splice(mem, addr, buf[..bpos])
      {
        var m := Min(n, ncap);
        SpliceOn(mem, addr, buf, bpos, m);
        CurrentPage();
        PutChunk(npos, buf[bpos..bpos + m]);
        bpos, n := bpos + m, n - m;
        if n > 0 {
          CurrentPage();
          ncap := curr.ptr.Length;
          npos := 0;
        }
      }
      assert buf[..bpos] == buf;
    }

    /** Grow, then copy across; `grown` is the memory in between. */
    method GrowAndCopy(buf: seq<Byte>) returns (ghost grown: seq<Byte>)
      requires Linked() && Room(|buf|) && buf != []
      modifies this, Repr
      ensures Linked() && fresh(Repr - old(Repr)) && skew == old(skew) && littleEndian == old(littleEndian)
      ensures position == old(position) + |buf| && size == Max(old(size), position)
      ensures Address() == old(Address()) + |buf|
      ensures old(Memory()) <= grown && old(Address()) + |buf| <= |grown|
      ensures Memory() == Splice(grown, old(Address()), buf)
      ensures old(capacity) <= capacity && |pages| == |old(pages)| + old(PagesAdded(|buf|))
      ensures old(capacity - size) < INT_RANGE / 2 ==> capacity - size <= Max(old(capacity - size), |buf| + base - 1)
      ensures old(position) == old(size) && old(capacity - size) < INT_RANGE / 2 ==>
                capacity - size < base || capacity - size == old(capacity - size) - |buf|
    {
      hide Splice, Flatten, Start, Chained, Cursor, PageAt;
      Basics();
      AddCapacity(|buf|);
      Basics();
      grown := Memory();
      AddressBound();
      FlattenPrefix(data, |old(data)|);
      CopyAcross(buf);
      if position > size {
        size := position;
      }
    }

    method Write(buf: seq<Byte>)
      requires Linked() && Room(|buf|)
      modifies this, Repr
      ensures Linked() && fresh(Repr - old(Repr)) && skew == old(skew) && littleEndian == old(littleEndian)
      ensures position == old(position) + |buf| && size == Max(old(size), position)
      ensures Address() == old(Address()) + |buf|
      ensures |old(Memory())| <= |Memory()| && old(Address()) + |buf| <= |Memory()|
      ensures Memory()[old(Address())..old(Address()) + |buf|] == buf
      ensures forall i :: 0 <= i < |old(Memory())| && !(old(Address()) <= i < old(Address()) + |buf|)
                ==> Memory()[i] == old(Memory())[i]
      ensures skew == 0 ==> Contents() == Overwrite(old(Contents()), old(position), buf)
      ensures old(capacity) <= capacity && |pages| == |old(pages)| + old(PagesAdded(|buf|))
      ensures old(capacity - size) < INT_RANGE / 2 ==> capacity - size <= Max(old(capacity - size), |buf| + base - 1)
      ensures old(position) == old(size) && old(capacity - size) < INT_RANGE / 2 ==>
                capacity - size < base || capacity - size == old(capacity - size) - |buf|
    {
      AddressBound();
      if |buf| == 0 {
        return;
      }
      hide Splice, Flatten, Start, Chained;
      ghost var grown := GrowAndCopy(buf);
      SpliceOver(old(Memory()), grown, old(Address()), buf);
      if skew == 0 {
        SpliceOverwrites(old(Memory()), grown, old(size), old(position), buf);
      }
    }

    /** Copy `m` bytes out from the cursor, within the current page, and step on as `PutChunk` does. */
    method TakeChunk(npos: nat, m: nat) returns (chunk: seq<Byte>)
      requires Chained() && Cursor() && page < |pages| && npos == off && npos + m <= base
      modifies this`curr, this`page, this`off, this`position
      ensures Chained() && Cursor()
      ensures position == old(position) + m && Address() == old(Address()) + m
      ensures Address() <= |Memory()| && chunk == Memory()[old(Address())..Address()]
      ensures if npos + m == base then page == old(page) + 1 && off == 0 else page == old(page) && off == npos + m
    {
      FlattenSlice(data, base, page, npos, m);
      hide Flatten;
      chunk := curr.ptr[npos..npos + m];
      assert chunk == data[page][npos..npos + m];
      position := position + m;
      if npos + m == curr.ptr.Length {
        curr := curr.next;
        page, off := page + 1, 0;
      } else {
        off := off + m;
      }
    }

    method Read(n: nat) returns (r: Outcome, out: seq<Byte>)
      requires Linked() && (skew == 0 || position == size)
      modifies this`curr, this`page, this`off, this`position
      ensures Linked()
      ensures r == if n > size - old(position) then OutOfRange
                   else if n == 0 && old(curr) == null then NullPage
                   else Done
      ensures r != Done ==> out == [] && position == old(position)
      ensures r == Done ==> position == old(position) + n && out == Contents()[old(position)..position]
    {
      hide Flatten, Chained, Start, Cursor, PageAt;
      out := [];
      if n > size - position {
        return OutOfRange, [];
      }
      AddressBound();
      CursorPlace();
      var npos := Offset();
      if curr == null {
        return NullPage, [];
      }
      ContentIs(position, n);
      out := TakeAcross(npos, n);
      assert Linked();
      ContentIs(old(position), n);
      r := Done;
    }

    /** The page-crossing loop of `Read`. */
    method TakeAcross(npos: nat, n: nat) returns (out: seq<Byte>)
      requires Chained() && Cursor() && npos == off && curr != null && Address() + n <= Start(|pages|, base)
      modifies this`curr, this`page, this`off, this`position
      ensures Chained() && Cursor() && position == old(position) + n
      ensures old(Address()) + n <= |Memory()| && out == Memory()[old(Address())..old(Address()) + n]
    {
      Basics();
      StartOfCursor();
      hide Flatten, Chained, Start, Cursor, PageAt;
      var at, ncap, left := npos, curr.ptr.Length - npos, n;
      out := [];
      ghost var addr, mem := Address(), Memory();
      while left > 0
        invariant 0 <= left <= n
        invariant Chained() && Cursor() && position == old(position) + (n - left)
        invariant left > 0 ==> at == off && ncap == base - at && off < base
        invariant Address() == addr + (n - left) <= |mem|
        invariant out == mem[addr..addr + (n - left)]
      {
        var m := Min(left, ncap);
        CurrentPage();
        var chunk := TakeChunk(at, m);
        SliceJoin(mem, addr, addr + (n - left), addr + (n - left) + m);
        out := out + chunk;
        left := left - m;
        if left > 0 {
          CurrentPage();
          ncap := curr.ptr.Length;
          at := 0;
        }
      }
    }

    /** `v` is the end of the content and the start of the last page. */
    ghost predicate AtLastPageStart(v: nat)
      reads this
    {
      |pages| > 0 && v == size && v == Start(|pages| - 1, base)
    }

    /** Walk from `root` to the page that holds byte `v`. */
    method Seek(v: nat) returns (node: Node?, rest: nat, ghost k: nat)
      requires Chained()
      ensures k <= |pages| && node == PageAt(k) && Start(k, base) + rest == v
      ensures if node == null then k == |pages| else rest < base && k < |pages| && node == pages[k]
      ensures v <= Start(|pages|, base) ==> (k == |pages| ==> rest == 0) && rest < base
    {
      node, rest, k := root, v, 0;
      while node != null && rest >= node.ptr.Length
        invariant k <= |pages| && node == PageAt(k) && Start(k, base) + rest == v
        decreases |pages| - k
      {
        rest := rest - node.ptr.Length;
        node := node.next;
        k := k + 1;
      }
    }

    /** The page that holds byte `p`, and `p % m_baseSize`. */
    method FindPage(p: nat) returns (node: Node?, npos: nat, ghost k: nat)
      requires Chained()
      ensures node == null ==> Start(|pages|, base) <= p
      ensures node != null ==>
                k < |pages| && node == pages[k] && npos < base && p == Start(k, base) + npos < Start(|pages|, base)
    {
      hide Flatten, Start, PageAt;
      Basics();
      var rest;
      node, rest, k := Seek(p);
      npos := p % base;
      if node != null {
        Locate(p, k, rest, base);
        StartMonotone(k, rest, |pages|, base);
      }
    }

    method SetPosition(v: nat) returns (r: Outcome)
      requires Linked()
      modifies this, Repr
      ensures Linked() && fresh(Repr - old(Repr)) && old(Repr) <= Repr
      ensures r == if v > size then OutOfRange else Done
      ensures size == old(size) && root == old(root) && littleEndian == old(littleEndian)
      ensures r == OutOfRange ==> position == old(position) && skew == old(skew) && page == old(page)
      ensures r == Done ==> position == v
      ensures r == Done ==> skew == if old(AtLastPageStart(v)) then 1 else 0
      ensures |pages| == |old(pages)| + if old(AtLastPageStart(v)) then 1 else 0
      ensures r == Done && skew == 1 ==> page + 1 == |pages|
      ensures Contents() == old(Contents())
      ensures pages[..|old(pages)|] == old(pages) && data[..|old(data)|] == old(data)
    {
      if v > size {
        return OutOfRange;
      }
      var tem := MoveTo(v);
      if tem == 0 && v == size {
        OpenNextPage();
      }
      FlattenPrefix(data, |old(data)|);
      FlattenLength(data, base);
      FlattenLength(data[..|old(data)|], base);
      r := Done;
    }

    /** Put the cursor on byte `v`, at offset `tem` of its page. */
    method MoveTo(v: nat) returns (tem: nat)
      requires Linked() && v <= size
      modifies this`position, this`curr, this`page, this`off, this`skew
      ensures Valid() && position == v && tem == off
      ensures page + 1 == |pages| && off == 0 <==> v == Start(|pages| - 1, base)
    {
      hide Flatten, Chained, Start, PageAt;
      Basics();
      Extent();
      StartNone(base);
      position := v;
      ghost var k;
      curr, tem, k := Seek(v);
      page, off, skew := k, tem, 0;
      StartsPage(v, k, tem, |pages|, base);
    }

    /** At the end of the content and the start of a page: when that page is the last, `SetPosition` adds
        another and moves to it. */
    method OpenNextPage()
      requires Valid() && off == 0 && position == size
      modifies this`curr, this`capacity, this`pages, this`data, this`page, this`skew, this`Repr, Repr
      ensures Linked() && fresh(Repr - old(Repr)) && old(Repr) <= Repr
      ensures skew == if old(page) + 1 == |old(pages)| then 1 else 0
      ensures |pages| == |old(pages)| + skew && (skew == 1 ==> page + 1 == |pages|)
      ensures pages[..|old(pages)|] == old(pages) && data[..|old(data)|] == old(data)
    {
      if curr != null && curr.next == null {
        AppendPage(curr);
        capacity := capacity + base;
        curr := curr.next;
        page, skew := page + 1, 1;
      }
    }

    /** Cut the list behind `root`. */
    method DropPages()
      requires Chained()
      modifies root`next, this`pages, this`data, this`Repr
      ensures Chained() && Repr <= old(Repr) && pages == [root]
    {
      root.next := null;
      pages, data := [root], [data[0]];
      Repr := {root, root.ptr};
    }

    method Clear()
      requires Linked()
      modifies this, Repr
      ensures Valid() && Repr <= old(Repr)
      ensures Contents() == [] && position == size == 0
      ensures capacity == base && pages == [old(root)]
      ensures littleEndian == old(littleEndian)
    {
      hide Flatten;
      DropPages();
      position, size := 0, 0;
      capacity := base;
      curr := root;
      page, off, skew := 0, 0, 0;
      assert Start(1, base) == base;
    }

    // ---- Scatter/gather ---------------------------------------------------------------------

    /** What a gathering send takes from the list is the flat memory it covers. */
    lemma {:induction false} GatherSlices(k: nat, at: nat, n: nat)
      requires Chained() && at < base && Start(k, base) + at + n <= Start(|pages|, base)
      ensures InBounds(Slices(pages, base, k, at, n)) && |Memory()| == Start(|pages|, base)
      ensures Gather(Slices(pages, base, k, at, n)) == Memory()[Start(k, base) + at..Start(k, base) + at + n]
      decreases n
    {
      FlattenLength(data, base);
      if n > 0 {
        StartMonotone(k, at, |pages|, base);
        var m := Min(base - at, n);
        GatherSlices(k + 1, 0, n - m);
        GatherFirst(k, at, m, Slices(pages, base, k + 1, 0, n - m), n);
      }
    }

    /** The content, as part of the memory. */
    lemma ContentIs(p: nat, n: nat)
      requires Linked() && p + n <= size
      ensures p + n <= |Memory()| == capacity == Start(|pages|, base)
      ensures Contents()[p..p + n] == Memory()[p..p + n]
    {
      FlattenLength(data, base);
    }

    lemma GatherNothing(vect: seq<IoVec>)
      ensures vect[|vect|..] == [] && InBounds([]) && Gather([]) == []
    {
    }

    lemma SubBelow(p: nat)
      requires Linked()
      ensures p <= size ==> Sub64(size, p) == size - p
    {
    }

    lemma GatherFirst(k: nat, at: nat, m: nat, rest: seq<IoVec>, n: nat)
      requires Chained() && k < |pages| && at < base && at + m <= base && m <= n && InBounds(rest)
      requires Start(k, base) + at + n <= |Memory()|
      requires Gather(rest) == Memory()[Start(k, base) + at + m..Start(k, base) + at + n]
      ensures var vec := [IoVec(pages[k].ptr, at, m)] + rest;
              InBounds(vec) && Gather(vec) == Memory()[Start(k, base) + at..Start(k, base) + at + n]
    {
      FlattenSlice(data, base, k, at, m);
      hide Start, Flatten;
      var vec := [IoVec(pages[k].ptr, at, m)] + rest;
      assert vec[1..] == rest;
      assert pages[k].ptr[at..at + m] == data[k][at..at + m];
      var a, mem := Start(k, base) + at, Memory();
      SliceJoin(mem, a, a + m, a + n);
    }

    /** The list-building loop shared by the two `getReadBuffers`. */
    method Collect(vect: seq<IoVec>, from: Node, ghost k: nat, npos: nat, n: nat)
        returns (vec: seq<IoVec>, total: nat)
      requires Chained() && k < |pages| && from == pages[k] && npos < base
      ensures var a, end := Start(k, base) + npos, Start(|pages|, base);
              && a < end && total == Min(n, end - a)
              && vec == vect + Slices(pages, base, k, npos, if a + n <= end then n else Sub0(end, a + base))
    {
      hide Flatten, Chained, Start, Slices, PageAt;
      Basics();
      SlicesNone(pages, base, k, npos);
      var node: Node, at: nat, left: nat := from, npos, n;
      var ncap := from.ptr.Length - npos;
      vec := vect;
      ghost var i: nat := k;
      ghost var a: nat := Start(k, base) + npos;
      StartMonotone(k, npos, |pages|, base);
      while left > 0
        invariant left <= n && i < |pages| && node == pages[i]
        invariant left > 0 ==> at < base && ncap == base - at && (at == 0 || left == n)
        invariant left > 0 ==> Start(i, base) + at + left == a + n
        invariant left == 0 ==> a + n <= Start(|pages|, base)
        invariant vec == vect + Slices(pages, base, k, npos, n - left)
      {
        StartMonotone(i, at, |pages|, base);
        if ncap >= left {
          SlicesSnoc(pages, base, k, npos, n - left, i, at, left);
          vec := vec + [IoVec(node.ptr, at, left)];
          left := 0;
        } else {
          var iov := IoVec(node.ptr, at, ncap);
          SlicesSnoc(pages, base, k, npos, n - left, i, at, ncap);
          left := left - ncap;
          NextOrEnd(i);
          StartStep(i, base);
          if node.next == null {
            return vec, n - left;
          }
          node := node.next;
          i := i + 1;
          ncap := node.ptr.Length;
          at := 0;
          vec := vec + [iov];
        }
      }
      total := n;
    }

    method GetReadBuffers(vect: seq<IoVec>, n: nat) returns (vec: seq<IoVec>, total: nat)
      requires Linked() && (skew == 0 || position == size)
      ensures total == Min(n, size - position)
      ensures total == 0 ==> vec == vect
      ensures total > 0 ==> vec == vect + Slices(pages, base, page, off, total)
      ensures InBounds(vec[|vect|..]) && Gather(vec[|vect|..]) == Contents()[position..position + total]
    {
      hide Linked, Contents, Flatten, Chained, Start, Gather, Slices, InBounds, Cursor, PageAt;
      Extent();
      total := Min(n, size - position);
      ContentIs(position, total);
      if total == 0 {
        GatherNothing(vect);
        return vect, 0;
      }
      AddressBound();
      var npos := Offset();
      vec, total := Collect(vect, curr, page, npos, total);
      GatherSlices(page, off, total);
      assert vec[|vect|..] == Slices(pages, base, page, off, total);
    }

    /** The bytes of the memory from `p` on that the list gathers: past the last page there are none, and a
        request that runs past it loses the element of the last page, though `total` counts it. */
    ghost function Offered(p: nat, m: nat): nat
      reads this
    {
      if m == 0 || p >= capacity then 0
      else if p + m <= capacity then m
      else Sub0(capacity, p + base)
    }

    /** What `vec` adds to `vect` gathers the `n` bytes of the memory from `p` on. */
    ghost predicate Lists(vect: seq<IoVec>, vec: seq<IoVec>, p: nat, n: nat)
      reads this, set i | |vect| <= i < |vec| :: vec[i].ptr
    {
      && vect <= vec && InBounds(vec[|vect|..])
      && if n == 0 then Gather(vec[|vect|..]) == []
         else p + n <= |Memory()| && Gather(vec[|vect|..]) == Memory()[p..p + n]
    }

    method GetReadBuffersAt(vect: seq<IoVec>, n: nat, p: nat) returns (vec: seq<IoVec>, total: nat)
      requires Linked()
      ensures total == Min(Min(n, Sub64(size, p)), Sub0(capacity, p))
      ensures Lists(vect, vec, p, Offered(p, Min(n, Sub64(size, p))))
      ensures p <= size ==> total == Min(n, size - p) && Gather(vec[|vect|..]) == Contents()[p..p + total]
    {
      SubBelow(p);
      Extent();
      hide Linked, Sub64, Flatten, Chained, Start, Gather, InBounds, Cursor, PageAt, Contents;
      total := Min(n, Sub64(size, p));
      if p <= size {
        ContentIs(p, total);
      }
      vec, total := CollectAt(vect, total, p);
    }

    /** Find the page of byte `p`, and list `m` bytes from there on. */
    method CollectAt(vect: seq<IoVec>, m: nat, p: nat) returns (vec: seq<IoVec>, total: nat)
      requires Linked()
      ensures total == Min(m, Sub0(capacity, p))
      ensures Lists(vect, vec, p, Offered(p, m))
    {
      hide Linked, Flatten, Chained, Start, Gather, Slices, InBounds, Cursor, PageAt, Lists;
      Extent();
      ListsNothing(vect, p);
      if m == 0 {
        return vect, 0;
      }
      var node, npos;
      ghost var k;
      node, npos, k := FindPage(p);
      if node == null {
        return vect, 0;
      }
      ghost var given := Offered(p, m);
      vec, total := Collect(vect, node, k, npos, m);
      GatherListed(vect, vec, k, npos, given);
    }

    lemma GatherListed(vect: seq<IoVec>, vec: seq<IoVec>, k: nat, at: nat, n: nat)
      requires Linked() && at < base && Start(k, base) + at + n <= capacity
      requires vec == vect + Slices(pages, base, k, at, n)
      ensures Lists(vect, vec, Start(k, base) + at, n)
    {
      hide Linked, Flatten, Chained, Start, Gather, Slices, InBounds;
      Extent();
      GatherSlices(k, at, n);
      assert vec[|vect|..] == Slices(pages, base, k, at, n);
    }

    lemma ListsNothing(vect: seq<IoVec>, p: nat)
      ensures Lists(vect, vect, p, 0)
    {
    }

    /** `read(buf, size, position) const`: `out` is what was copied, up to an early return or the division. Past
        the content this is memory beyond it, up to the end of the last page. */
    method ReadAt(n: nat, p: nat) returns (r: Outcome, out: seq<Byte>)
      requires Linked()
      ensures r == if n > Sub64(size, p) then OutOfRange
                   else if size == 0 && n > 0 && p + n <= capacity then DivideByZero
                   else Done
      ensures |Memory()| == capacity
      ensures r != OutOfRange ==> out == if p >= capacity then [] else Memory()[p..Min(p + n, capacity)]
      ensures p <= size && r == Done ==> out == Contents()[p..p + n]
    {
      SubBelow(p);
      Basics();
      Extent();
      hide Linked, Sub64, Flatten, Chained, Start, Cursor, PageAt, Contents;
      out := [];
      if n > Sub64(size, p) {
        return OutOfRange, [];
      }
      if p <= size {
        ContentIs(p, n);
      }
      var node, npos;
      ghost var k;
      node, npos, k := FindPage(p);
      if node == null {
        return Done, [];
      }
      var copied;
      out, copied := CopyOut(node, k, npos, n);
      // the last copy is followed by a test of `(position + size) % m_size`
      r := if n > 0 && copied && size == 0 then DivideByZero else Done;
    }

    /** `memcpy` of `m` bytes out of page `k`. */
    method PeekChunk(node: Node, ghost k: nat, npos: nat, m: nat) returns (chunk: seq<Byte>)
      requires Chained() && k < |pages| && node == pages[k] && npos + m <= base
      ensures Start(k, base) + npos + m <= |Memory()|
      ensures chunk == Memory()[Start(k, base) + npos..Start(k, base) + npos + m]
    {
      FlattenSlice(data, base, k, npos, m);
      hide Flatten;
      chunk := node.ptr[npos..npos + m];
      assert chunk == data[k][npos..npos + m];
    }

    /** The page-crossing loop of `ReadAt`; `copied` is whether it got to the last copy, and not out of pages. */
    method CopyOut(from: Node, ghost k: nat, npos: nat, n: nat) returns (out: seq<Byte>, copied: bool)
      requires Chained() && k < |pages| && from == pages[k] && npos < base
      requires |Memory()| == Start(|pages|, base)
      ensures copied <==> Start(k, base) + npos + n <= |Memory()|
      ensures Start(k, base) + npos <= |Memory()|
      ensures out == Memory()[Start(k, base) + npos..Min(Start(k, base) + npos + n, |Memory()|)]
    {
      hide Flatten, Chained, Start;
      Basics();
      var node: Node, at: nat, left: nat := from, npos, n;
      var ncap := from.ptr.Length - npos;
      out := [];
      ghost var i: nat := k;
      ghost var a: nat := Start(k, base) + npos;
      StartMonotone(k, npos, |pages|, base);
      while left > 0
        invariant left <= n && i < |pages| && node == pages[i]
        invariant at < base && ncap == base - at
        invariant Start(i, base) + at + left == a + n || left == 0
        invariant a + n - left <= |Memory()| && out == Memory()[a..a + n - left]
      {
        StartMonotone(i, at, |pages|, base);
        var chunk := PeekChunk(node, i, at, Min(left, ncap));
        SliceJoin(Memory(), a, a + n - left, a + n - left + |chunk|);
        out := out + chunk;
        if ncap >= left {
          left := 0;
        } else {
          left := left - ncap;
          Next(i);
          StartStep(i, base);
          if node.next == null {
            return out, false;
          }
          node := node.next;
          i := i + 1;
          StartStep(i - 1, base);
          ncap := node.ptr.Length;
          at := 0;
        }
      }
      copied := true;
    }

    /** The unread content. */
    method ToString() returns (str: seq<Byte>)
      requires Linked()
      ensures str == Contents()[position..]
    {
      var readsize := size - position;
      if readsize == 0 {
        return [];
      }
      var r;
      r, str := ReadAt(readsize, position);
    }

    /** Step to the next page, linking a new one behind the last. */
    method NextPage(node: Node, ghost i: nat) returns (next: Node)
      requires Linked() && curr != null && i < |pages| && node == pages[i]
      modifies this`capacity, this`pages, this`data, this`Repr, node`next
      ensures Linked() && fresh(Repr - old(Repr)) && old(Repr) <= Repr
      ensures old(pages) <= pages && old(data) <= data && old(capacity) <= capacity
      ensures i + 1 < |old(pages)| ==> pages == old(pages)
      ensures i + 1 < |pages| && next == pages[i + 1]
    {
      hide Flatten;
      if node.next == null {
        AppendPage(node);
        capacity := capacity + base;
      }
      next := node.next;
    }

    lemma Extent()
      requires Linked()
      ensures Chained() && base > 0 && off < base && position <= size <= capacity == Start(|pages|, base)
      ensures Address() <= capacity && Address() == position + Start(skew, base)
      ensures if curr == null then page == |pages| && Address() == capacity else page < |pages| && curr == pages[page]
      ensures forall i :: 0 <= i < |pages| ==> pages[i].ptr.Length == base
    {
      StartMonotone(page, off, |pages|, base);
    }

    lemma InRepr(i: nat)
      requires Linked() && i < |pages|
      ensures pages[i] in Repr
    {
    }

    lemma SlicesNone(pages: seq<Node>, base: nat, k: nat, at: nat)
      requires at < base
      ensures Slices(pages, base, k, at, 0) == []
    {
    }

    /** The list-building loop of `getWriteBuffers`, which links further pages as it needs them. */
    method CollectForWrite(n: nat) returns (vec: seq<IoVec>)
      requires Linked() && curr != null
      modifies this`capacity, this`pages, this`data, this`Repr, Repr
      ensures Linked() && fresh(Repr - old(Repr)) && old(Repr) <= Repr
      ensures old(pages) <= pages && old(data) <= data
      ensures Address() + n <= capacity
      ensures old(Address() + n <= capacity) ==> pages == old(pages)
      ensures vec == Slices(pages, base, page, off, n)
    {
      hide Linked, Slices, Flatten, Start, Chained, Cursor, PageAt;
      Extent();
      SlicesNone(pages, base, page, off);
      var npos := Offset();
      var node: Node, at: nat, left: nat := curr, npos, n;
      var ncap := node.ptr.Length - npos;
      vec := [];
      ghost var i: nat := page;
      while left > 0
        invariant left <= n && i < |pages| && node == pages[i] && curr != null && off < base
        invariant Linked() && fresh(Repr - old(Repr)) && old(Repr) <= Repr
        invariant old(pages) <= pages && old(data) <= data
        invariant old(Address() + n <= capacity) ==> pages == old(pages)
        invariant left > 0 ==> at < base && ncap == base - at && (at == 0 || left == n)
        invariant left > 0 ==> Start(i, base) + at + left == Address() + n
        invariant Address() + (n - left) <= capacity == Start(|pages|, base)
        invariant Address() == old(Address()) && (pages == old(pages) ==> capacity == old(capacity))
        invariant vec == Slices(pages, base, page, off, n - left)
      {
        StartMonotone(i, at, |pages|, base);
        var m := Min(left, ncap);
        SlicesSnoc(pages, base, page, off, n - left, i, at, m);
        vec := vec + [IoVec(node.ptr, at, m)];
        left := left - m;
        if left > 0 {
          ghost var was := pages;
          StartMonotone(i + 1, 0, |pages|, base);
          StartStep(i, base);
          assert Start(i + 1, base) + left == Address() + n;
          InRepr(i);
          node := NextPage(node, i);
          SlicesGrow(was, pages, base, page, off, n - left);
          i := i + 1;
          Extent();
          ncap := node.ptr.Length;
          at := 0;
        }
      }
    }

    method GetWriteBuffers(vect: seq<IoVec>, n: nat) returns (vec: seq<IoVec>, total: nat)
      requires Linked() && GrowthFits(n) && (curr == null && n > 0 ==> n > capacity - size)
      modifies this, Repr
      ensures Linked() && fresh(Repr - old(Repr)) && old(Repr) <= Repr
      ensures position == old(position) && size == old(size) && skew == old(skew)
      ensures page == old(page) && off == old(off) && root == old(root) && littleEndian == old(littleEndian)
      ensures old(pages) <= pages && old(data) <= data
      ensures Contents() == old(Contents())
      ensures total == n && Address() + n <= capacity && n <= capacity - size
      ensures old(capacity - size) < INT_RANGE / 2 && n + base <= INT_RANGE / 2 && skew == 0 ==>
                capacity - size < INT_RANGE / 2
      ensures skew == 0 ==> |pages| == |old(pages)| + old(PagesAdded(n))
      ensures n == 0 ==> vec == vect
      ensures n > 0 ==> vec == vect + Slices(pages, base, page, off, n)
    {
      AddressBound();
      if n == 0 {
        return vect, 0;
      }
      hide Slices, Flatten, Start, Chained;
      AddCapacity(n);
      AddressBound();
      var list := CollectForWrite(n);
      vec := vect + list;
      total := n;
      FlattenPrefix(data, |old(data)|);
      assert data[..|old(data)|] == old(data);
      AddressBound();
    }

    /** A scattering receive into the list: the first `|bytes|` bytes it names, in order. */
    method Scatter(vec: seq<IoVec>, ghost k: nat, ghost at: nat, ghost n: nat, bytes: seq<Byte>)
      requires Chained() && at < base && vec == Slices(pages, base, k, at, n)
      requires |bytes| <= n && Start(k, base) + at + n <= Start(|pages|, base)
      modifies Repr, this`data
      ensures Chained() && |data| == |old(data)|
      ensures Start(k, base) + at + |bytes| <= |old(Memory())|
      ensures Memory() == Splice(old(Memory()), Start(k, base) + at, bytes)
      decreases n
    {
      Basics();
      if bytes == [] {
        return;
      }
      StartMonotone(k, at, |pages|, base);
      var m := Min(vec[0].len, |bytes|);
      SpliceSplice(Memory(), Start(k, base) + at, bytes[..m], bytes[m..]);
      assert bytes[..m] + bytes[m..] == bytes;
      assert vec[1..] == Slices(pages, base, k + 1, 0, n - vec[0].len);
      CopyIn(vec[0].ptr, k, vec[0].off, bytes[..m]);
      if m < |bytes| {
        StartStep(k, base);
        hide Splice, Flatten, Chained, Slices, Start;
        Scatter(vec[1..], k + 1, 0, n - vec[0].len, bytes[m..]);
      } else {
        assert bytes[..m] == bytes;
      }
    }

    /** Only ever raises the size, and does not look at the capacity. */
    method SetSize(v: nat)
      requires Linked()
      modifies this`size
      ensures size == Max(old(size), v)
      ensures Linked() <==> v <= capacity
    {
      if size < v {
        size := v;
      }
    }

    method SetLittleEndian(val: bool)
      modifies this`littleEndian
      ensures littleEndian == val
    {
      littleEndian := val;
    }
  }
}
