/** The HTTP connection pool: one thread's view, method by method. */
module ConnectionPool {
  import opened Options

  /** What the loop over the pool does: connections that are not usable are taken out up to the first usable
      one, which is handed out; the rest stay, in order. */
  ghost predicate Purges<T>(pool: seq<T>, usable: set<T>, invalid: seq<T>, taken: Option<T>, rest: seq<T>) {
    && pool == invalid + (if taken.Some? then [taken.value] else []) + rest
    && (forall i :: 0 <= i < |invalid| ==> invalid[i] !in usable)
    && (if taken.Some? then taken.value in usable else rest == [])
  }

  /** The outcome is determined. */
  lemma PurgeDetermined<T>(pool: seq<T>, usable: set<T>, i1: seq<T>, t1: Option<T>, r1: seq<T>,
                           i2: seq<T>, t2: Option<T>, r2: seq<T>)
    requires Purges(pool, usable, i1, t1, r1) && Purges(pool, usable, i2, t2, r2)
    ensures i1 == i2 && t1 == t2 && r1 == r2
  {
    var n, k := |i1|, |i2|;
    assert forall i :: 0 <= i < n ==> pool[i] == i1[i];
    assert forall i :: 0 <= i < k ==> pool[i] == i2[i];
    assert t1.Some? ==> pool[n] == t1.value;
    assert t2.Some? ==> pool[k] == t2.value;
    assert n == k;
    assert i1 == pool[..n] == i2;
    assert r1 == pool[|pool| - |r1|..] && r2 == pool[|pool| - |r2|..];
  }

  class HttpConnection {
    const createTime: nat
    var requestSize: nat
    var isBusy: bool
    /** The socket's state, which the peer may change at any time. */
    var connected: bool

    constructor (createTime: nat)
      ensures this.createTime == createTime && requestSize == 0 && !isBusy && connected
    {
      this.createTime := createTime;
      requestSize, isBusy, connected := 0, false, true;
    }

    predicate Usable(now: nat, maxAliveTime: nat)
      reads this
    {
      connected && createTime + maxAliveTime > now && !isBusy
    }
  }

  class HttpConnectionPool {
    const maxAliveTime: nat
    const maxRequest: nat
    const maxSize: nat
    var pool: seq<HttpConnection>
    var total: int

    constructor (maxAliveTime: nat, maxRequest: nat, maxSize: nat)
      ensures this.maxAliveTime == maxAliveTime && this.maxRequest == maxRequest && this.maxSize == maxSize
      ensures pool == [] && total == 0
    {
      this.maxAliveTime, this.maxRequest, this.maxSize := maxAliveTime, maxRequest, maxSize;
      pool, total := [], 0;
    }

    ghost predicate Valid()
      reads this, pool
    {
      && |pool| <= maxSize
      && (forall i, j :: 0 <= i < j < |pool| ==> pool[i] != pool[j])
      && (forall c :: c in pool ==> !c.isBusy && c.requestSize < maxRequest)
    }

    ghost function UsableOnes(now: nat): set<HttpConnection>
      reads this, pool
    {
      set c | c in pool && c.Usable(now, maxAliveTime)
    }

    /** The locked loop of `getConnnection`. */
    method Purge(now: nat) returns (invalid: seq<HttpConnection>, ptr: Option<HttpConnection>)
      requires Valid()
      modifies this`pool, pool
      ensures Purges(old(pool), old(UsableOnes(now)), invalid, ptr, pool)
      ensures ptr.Some? ==> ptr.value.isBusy && ptr.value !in pool
      ensures forall c :: c in old(pool) ==>
                c.connected == old(c.connected) && c.requestSize == old(c.requestSize)
                && (ptr != Some(c) ==> c.isBusy == old(c.isBusy))
      ensures Valid()
    {
      invalid, ptr := [], None;
      ghost var start, usable, n := pool, UsableOnes(now), 0;
      while pool != []
        invariant n <= |start| && invalid == start[..n] && pool == start[n..] && ptr == None
        invariant forall i :: 0 <= i < n ==> start[i] !in usable
        invariant forall c :: c in start ==>
                    c.isBusy == old(c.isBusy) && c.connected == old(c.connected) && c.requestSize == old(c.requestSize)
        decreases |pool|
      {
        var conn := pool[0];
        assert conn == start[n];
        pool := pool[1..];
        if !conn.connected {
          n, invalid := n + 1, invalid + [conn];
          continue;
        }
        if conn.createTime + maxAliveTime <= now {
          n, invalid := n + 1, invalid + [conn];
          continue;
        }
        if conn.isBusy {
          n, invalid := n + 1, invalid + [conn];
          continue;
        }
        conn.isBusy := true;
        ptr := Some(conn);
        break;
      }
      Parted(start, n);
      if ptr == None {
        assert start == start[..n] + [] + [];
      }
    }

    /** `getConnnection`; `dialed` is what resolving, connecting and shaking hands yields, `None` when one of
        them fails. */
    method GetConnection(now: nat, dialed: Option<HttpConnection>) returns (ptr: Option<HttpConnection>)
      requires Valid() && (dialed.Some? ==> dialed.value !in pool)
      modifies this, pool
      ensures Valid()
      ensures exists invalid, taken ::
                Purges(old(pool), old(UsableOnes(now)), invalid, taken, pool)
                && ptr == (if taken.Some? then taken else dialed)
                && total == old(total) - |invalid| + (if taken.None? && dialed.Some? then 1 else 0)
      ensures ptr.Some? ==> ptr.value !in pool
    {
      var invalid;
      invalid, ptr := Purge(now);
      ghost var taken := ptr;
      total := total - |invalid|;
      if ptr == None {
        if dialed.None? {
          return;
        }
        ptr := dialed;
        total := total + 1;
      }
    }

    /** `ReleasePtr`: whether the connection goes back to the pool, or is deleted. */
    method Release(conn: HttpConnection, now: nat) returns (kept: bool)
      requires Valid() && conn !in pool
      modifies this, conn
      ensures Valid()
      ensures conn.requestSize == old(conn.requestSize) + 1 && !conn.isBusy && conn.connected == old(conn.connected)
      ensures kept <==> old(conn.connected) && conn.createTime + maxAliveTime > now
                        && old(conn.requestSize) + 1 < maxRequest && |old(pool)| < maxSize
      ensures pool == old(pool) + if kept then [conn] else []
      ensures total == old(total) - if kept then 0 else 1
    {
      conn.requestSize := conn.requestSize + 1;
      conn.isBusy := false;
      if !conn.connected || conn.createTime + maxAliveTime <= now || conn.requestSize >= maxRequest {
        total := total - 1;
        assert pool + [] == pool;
        return false;
      }
      if |pool| < maxSize {
        pool := pool + [conn];
        kept := true;
      } else {
        total := total - 1;
        assert pool + [] == pool;
        kept := false;
      }
    }
  }

  lemma Parted<T>(start: seq<T>, n: nat)
    requires n <= |start|
    ensures n < |start| ==> start == start[..n] + [start[n]] + start[n + 1..] && start[n..][1..] == start[n + 1..]
    ensures forall x :: x in start[n..] ==> x in start
  {
  }
}
