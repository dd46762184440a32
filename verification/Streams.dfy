/** Fixed-size transfers between a paged buffer and a socket that may move fewer bytes than asked. */
module Streams {
  import opened Paging
  import opened PagedBuffer

  /** A stream socket. Each transfer moves a prefix of any length, or fails with a result of 0 or less. */
  class Socket {
    var connected: bool
    /** Everything sent and everything received so far, and whether some transfer has failed. */
    ghost var sent: seq<Byte>
    ghost var received: seq<Byte>
    ghost var failed: bool

    method Send(vec: seq<IoVec>) returns (ret: int)
      requires InBounds(vec)
      modifies this`sent, this`failed
      ensures ret <= Total(vec)
      ensures ret > 0 ==> sent == old(sent + Gather(vec)[..ret]) && failed == old(failed)
      ensures ret <= 0 ==> sent == old(sent) && failed == (old(failed) || Total(vec) > 0)
    {
      ret := *;
      if ret > Total(vec) {
        ret := Total(vec);
      }
      if ret > 0 {
        sent := sent + Gather(vec)[..ret];
      } else {
        failed := failed || Total(vec) > 0;
      }
    }

    /** Receive at most `room` bytes. */
    method Recv(room: nat) returns (ret: int, bytes: seq<Byte>)
      modifies this`received, this`failed
      ensures ret <= room && |bytes| == if ret > 0 then ret else 0
      ensures received == old(received) + bytes
      ensures failed == (old(failed) || ret <= 0)
    {
      ret, bytes := *, *;
      if ret > |bytes| || ret > room {
        ret := if |bytes| <= room then |bytes| else room;
      }
      bytes := if ret > 0 then bytes[..ret] else [];
      received := received + bytes;
      failed := failed || ret <= 0;
    }
  }

  /** Count `n` bytes that now stand behind the content: raise the size, move the cursor. */
  method Commit(data: ByteArray, n: nat)
    requires data.Linked() && n <= data.capacity - data.size && n > 0
    modifies data, data.Repr
    ensures data.Linked() && fresh(data.Repr - old(data.Repr))
    ensures data.size == old(data.size) + n && data.position == old(data.position) + n
    ensures data.size <= |old(data.Memory())| && data.Contents() == old(data.Memory())[..data.size]
    ensures data.skew == if data.position == data.size
                            && data.position + data.base == Start(|old(data.pages)|, data.base) then 1 else 0
    ensures |data.pages| == |old(data.pages)| + data.skew
    ensures old(data.capacity - data.size) - n <= data.capacity - data.size
    ensures data.skew == 0 ==> data.capacity == old(data.capacity)
    ensures data.curr == null ==> data.position == data.capacity
    ensures old(data.Memory()) <= data.Memory() && data.Address() == data.position + Start(data.skew, data.base)
  {
    hide ByteArray.Chained, ByteArray.Cursor, ByteArray.PageAt, Flatten;
    data.AddressBound();
    data.Basics();
    ghost var before := data.data;
    data.SetSize(data.size + n);
    var done := data.SetPosition(data.position + n);
    data.AddressBound();
    data.Extent();
    data.Basics();
    FlattenPrefix(data.data, |before|);
    assert data.data[..|before|] == before;
  }

  /** Move the cursor past `n` unread bytes. */
  method Advance(data: ByteArray, n: nat)
    requires data.Linked() && n <= data.size - data.position
    modifies data, data.Repr
    ensures data.Linked() && fresh(data.Repr - old(data.Repr)) && (data.skew == 0 || data.position == data.size)
    ensures data.size == old(data.size) && data.position == old(data.position) + n
    ensures data.Contents() == old(data.Contents())
  {
    hide ByteArray.Chained, ByteArray.Cursor, ByteArray.PageAt, ByteArray.Contents, Start;
    var done := data.SetPosition(data.position + n);
  }

  /** The number of pages once there is room for `len` more bytes. */
  ghost function GrownPages(data: ByteArray, len: nat): nat
    reads data
    requires data.size <= data.capacity && data.base > 0
  {
    |data.pages| + data.PagesAdded(len)
  }

  /** No receive short of all `len` bytes can end where the last page will start. */
  ghost predicate Uncut(data: ByteArray, len: nat)
    reads data
    requires data.size <= data.capacity && data.base > 0
  {
    !(data.size + data.base < Start(GrownPages(data, len), data.base) < data.size + len + data.base)
  }

  /** Appending at the end, on page counts that a signed 32-bit free space can hold. */
  ghost predicate Appending(data: ByteArray, len: nat)
    reads data, data.Repr
  {
    && data.Valid() && data.position == data.size
    && data.capacity - data.size < INT_RANGE / 2 && len + data.base <= INT_RANGE / 2
  }

  class SocketStream {
    const sock: Socket

    constructor (s: Socket)
      ensures sock == s
    {
      sock := s;
    }

    ghost predicate Sendable(data: ByteArray)
      reads data, data.Repr
    {
      sock !in data.Repr && data.Linked() && (data.skew == 0 || data.position == data.size)
    }

    /** Gather at most `len` unread bytes of `data` and send them. */
    method Transmit(data: ByteArray, len: nat) returns (ret: int)
      requires Sendable(data)
      modifies sock`sent, sock`failed
      ensures ret <= Min(len, data.size - data.position)
      ensures sock.sent == old(sock.sent) + data.Contents()[data.position..data.position + if ret > 0 then ret else 0]
      ensures sock.failed ==> old(sock.failed) || ret <= 0
      ensures ret <= 0 && sock.connected && len > 0 && data.position < data.size ==> sock.failed
      ensures !sock.connected ==> ret == -1
    {
      hide ByteArray.Linked, ByteArray.Chained, ByteArray.Contents, Flatten, Slices, Gather, InBounds, Total, Start;
      data.Extent();
      if !sock.connected {
        return -1;
      }
      var vec, total := data.GetReadBuffers([], len);
      assert vec[0..] == vec;
      ghost var c, from := data.Contents(), data.position;
      assert Gather(vec) == c[from..from + total] && |Gather(vec)| == Total(vec) == total;
      ret := sock.Send(vec);
      assert data.Contents() == c;
      if ret > 0 {
        assert c[from..from + total][..ret] == c[from..from + ret];
      } else {
        assert sock.sent + c[from..from] == sock.sent;
      }
    }

    /** Send at most `len` unread bytes of `data` and move its cursor past those that went out. */
    method Write(data: ByteArray, len: nat) returns (ret: int)
      requires Sendable(data)
      modifies data, data.Repr, sock`sent, sock`failed
      ensures Sendable(data)
      ensures fresh(data.Repr - old(data.Repr))
      ensures data.size == old(data.size) && data.Contents() == old(data.Contents())
      ensures ret <= Min(len, old(data.size - data.position))
      ensures var moved := if ret > 0 then ret else 0;
              && data.position == old(data.position) + moved
              && sock.sent == old(sock.sent) + data.Contents()[old(data.position)..data.position]
      ensures sock.failed ==> old(sock.failed) || ret <= 0
      ensures ret <= 0 && sock.connected && len > 0 && old(data.position < data.size) ==> sock.failed
      ensures !sock.connected ==> ret == -1
    {
      hide ByteArray.Linked, ByteArray.Chained, ByteArray.Contents;
      data.Extent();
      ret := Transmit(data, len);
      if ret > 0 {
        Advance(data, ret);
      }
    }

    /** Send exactly `len` unread bytes, unless some transfer fails first. */
    method WriteFixSize(data: ByteArray, len: nat) returns (ret: int)
      requires Sendable(data)
      modifies data, data.Repr, sock`sent, sock`failed
      ensures Sendable(data) && data.Contents() == old(data.Contents())
      ensures ret == len || ret <= 0
      ensures old(data.position) <= data.position <= old(data.position) + len
      ensures sock.sent == old(sock.sent) + data.Contents()[old(data.position)..data.position]
      ensures ret == len ==> data.position == old(data.position) + len
      ensures sock.connected && len <= old(data.size - data.position) && !sock.failed ==> ret == len
    {
      hide ByteArray.Chained, ByteArray.Cursor, ByteArray.PageAt, Flatten, Start;
      var l := len;
      ghost var from := data.position;
      while l > 0
        invariant 0 <= l <= len && data.position == from + (len - l)
        invariant Sendable(data)
        invariant fresh(data.Repr - old(data.Repr))
        invariant data.size == old(data.size) && data.Contents() == old(data.Contents())
        invariant sock.sent == old(sock.sent) + data.Contents()[from..data.position]
        invariant sock.failed ==> old(sock.failed)
      {
        ghost var at := data.position;
        ret := Write(data, l);
        if ret <= 0 {
          return;
        }
        SliceJoin(data.Contents(), from, at, data.position);
        l := l - ret;
      }
      ret := len;
    }

    ghost predicate Receivable(data: ByteArray, len: nat)
      reads data, data.Repr
    {
      && sock !in data.Repr && data.Linked()
      && data.GrowthFits(len) && (data.curr == null && len > 0 ==> len > data.capacity - data.size)
    }

    /** Let the socket fill the first part of the free space that follows the cursor of `data`. */
    method Fill(data: ByteArray, len: nat) returns (ret: int, ghost bytes: seq<Byte>, ghost grown: seq<Byte>)
      requires Receivable(data, len)
      modifies data, data.Repr, sock`received, sock`failed
      ensures data.Linked() && fresh(data.Repr - old(data.Repr)) && old(data.Repr) <= data.Repr
      ensures ret <= len && |bytes| == if ret > 0 then ret else 0
      ensures sock.received == old(sock.received) + bytes
      ensures sock.failed == (old(sock.failed) || ret <= 0)
      ensures data.size == old(data.size) && data.position == old(data.position)
      ensures data.skew == old(data.skew) && data.Address() == old(data.Address())
      ensures len <= data.capacity - data.size && data.Address() + |bytes| <= |data.Memory()|
      ensures data.skew == 0 ==> |data.pages| == old(GrownPages(data, len))
      ensures old(data.capacity - data.size) < INT_RANGE / 2 && len + data.base <= INT_RANGE / 2 && data.skew == 0 ==>
                data.capacity - data.size < INT_RANGE / 2
      ensures old(data.Memory()) <= grown && data.Address() + |bytes| <= |grown|
      ensures data.Memory() == Splice(grown, data.Address(), bytes)
    {
      hide ByteArray.Chained, ByteArray.Cursor, ByteArray.PageAt, Flatten, Start, Splice, Slices;
      var vec, total := data.GetWriteBuffers([], len);
      var received;
      ret, received := sock.Recv(total);
      bytes := received;
      data.Basics();
      data.Extent();
      FlattenPrefix(data.data, |old(data.data)|);
      assert data.data[..|old(data.data)|] == old(data.data);
      grown := data.Memory();
      if len > 0 {
        data.Scatter(vec, data.page, data.off, len, received);
      } else {
        SpliceParts(grown, data.Address(), bytes);
      }
    }

    /** Bytes for which there is room need no page. */
    lemma RoomLeft(data: ByteArray, n: nat)
      requires data.Linked() && n <= data.capacity - data.size
      ensures data.GrowthFits(n)
      ensures data.capacity - data.size < INT_RANGE / 2 ==> data.PagesAdded(n) == 0
    {
    }

    /** One receive of a run: what it appends, and that the run can go on as planned unless it was cut. */
    method ReadPart(data: ByteArray, l: nat) returns (ret: int, ghost part: seq<Byte>)
      requires Receivable(data, l)
      modifies data, data.Repr, sock`received, sock`failed
      ensures sock !in data.Repr && data.Linked() && fresh(data.Repr - old(data.Repr))
      ensures ret <= l && |part| == if ret > 0 then ret else 0
      ensures sock.received == old(sock.received) + part
      ensures sock.failed == (old(sock.failed) || (sock.connected && ret <= 0))
      ensures data.size == old(data.size) + |part| && data.position == old(data.position) + |part|
      ensures 0 < ret < l ==> Receivable(data, l - ret)
      ensures old(Appending(data, l)) ==> data.Contents() == old(data.Contents()) + part
      ensures old(Appending(data, l)) && 0 < ret < l
                && data.size + data.base != Start(old(GrownPages(data, l)), data.base) ==>
                Appending(data, l - ret) && GrownPages(data, l - ret) == old(GrownPages(data, l))
    {
      hide ByteArray.Chained, ByteArray.Cursor, ByteArray.PageAt, ByteArray.Memory, ByteArray.PagesAdded,
           ByteArray.GrowthFits, Flatten, Start, Overwrite;
      ghost var before := data.Contents();
      ret, part := Read(data, l);
      OverwriteAtEnd(before, part);
      assert data.Contents()[..data.size] == data.Contents();
      if 0 < ret < l {
        RoomLeft(data, l - ret);
      }
    }

    /** Receive at most `len` bytes into `data`, then raise its size and move its cursor by what arrived. */
    method Read(data: ByteArray, len: nat) returns (ret: int, ghost bytes: seq<Byte>)
      requires Receivable(data, len)
      modifies data, data.Repr, sock`received, sock`failed
      ensures sock !in data.Repr && data.Linked() && fresh(data.Repr - old(data.Repr))
      ensures ret <= len && |bytes| == if ret > 0 then ret else 0
      ensures sock.received == old(sock.received) + bytes
      ensures sock.failed == (old(sock.failed) || (sock.connected && ret <= 0)) && (!sock.connected ==> ret == -1)
      ensures data.size == old(data.size) + |bytes| && data.position == old(data.position) + |bytes|
      ensures old(data.skew) == 0 ==>
                data.Contents()[..Max(old(data.size), data.position)]
                == Overwrite(old(data.Contents()), old(data.position), bytes)
      ensures old(data.skew) == 0 && ret > 0 ==>
                data.skew == if data.position == data.size
                                && data.position + data.base == Start(old(GrownPages(data, len)), data.base) then 1 else 0
      ensures old(data.skew) == 0 && ret > 0 ==> |data.pages| == old(GrownPages(data, len)) + data.skew
      ensures ret > 0 ==> len - ret <= data.capacity - data.size
      ensures old(data.capacity - data.size) < INT_RANGE / 2 && len + data.base <= INT_RANGE / 2
                && old(data.skew) == 0 && ret > 0 && data.skew == 0 ==>
                data.capacity - data.size < INT_RANGE / 2
      ensures ret > 0 && data.curr == null ==> data.position == data.capacity
    {
      hide ByteArray.Chained, ByteArray.Cursor, ByteArray.PageAt, Flatten, Start, Splice;
      data.AddressBound();
      data.Extent();
      if !sock.connected {
        return -1, [];
      }
      ghost var grown;
      ret, bytes, grown := Fill(data, len);
      SpliceOverwrites(old(data.Memory()), grown, old(data.size), old(data.position), bytes);
      if ret > 0 {
        Commit(data, ret);
      }
    }

    /** Receive exactly `len` bytes into `data`, unless some transfer fails first. */
    method ReadFixSize(data: ByteArray, len: nat) returns (ret: int, ghost bytes: seq<Byte>)
      requires len > 0 ==> Receivable(data, len)
      requires data.Linked()
      modifies data, data.Repr, sock`received, sock`failed
      ensures data.Linked() && fresh(data.Repr - old(data.Repr))
      ensures (ret == len && |bytes| == len) || (ret <= 0 && |bytes| < len)
      ensures sock.received == old(sock.received) + bytes
      ensures sock.failed == (old(sock.failed) || (sock.connected && |bytes| < len))
      ensures data.size == old(data.size) + |bytes| && data.position == old(data.position) + |bytes|
      ensures old(Appending(data, len) && Uncut(data, len)) ==>
                data.Contents() == old(data.Contents()) + bytes
    {
      hide ByteArray.Chained, ByteArray.Cursor, ByteArray.PageAt, Flatten, Start;
      data.Basics();
      bytes := [];
      var l := len;
      ghost var clean := Appending(data, len) && Uncut(data, len);
      ghost var grown := GrownPages(data, len);
      while l > 0
        invariant 0 <= l <= len && |bytes| == len - l
        invariant l > 0 ==> Receivable(data, l)
        invariant data.Linked() && fresh(data.Repr - old(data.Repr))
        invariant sock.received == old(sock.received) + bytes
        invariant sock.failed == old(sock.failed)
        invariant data.size == old(data.size) + |bytes| && data.position == old(data.position) + |bytes|
        invariant clean ==> data.Contents() == old(data.Contents()) + bytes
        invariant clean && l > 0 ==> Appending(data, l) && GrownPages(data, l) == grown
      {
        ghost var part;
        ret, part := ReadPart(data, l);
        bytes := bytes + part;
        if ret <= 0 {
          return;
        }
        l := l - ret;
      }
      ret := len;
    }
  }
}
