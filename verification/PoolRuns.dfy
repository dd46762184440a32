/** Many threads at one connection pool: each step is one locked section or one update of a counter. */
module PoolRuns {
  import opened Options
  import opened ConnectionPool

  /** Where a connection is: pooled, taken out as unusable by a thread that has yet to deduct it, opened by
      a thread that has yet to count it, or handed out to a thread. */
  datatype Place = Pooled | Purged(t: nat) | Uncounted(t: nat) | Out(t: nat)

  datatype Conn = Conn(created: nat, served: nat, busy: bool, connected: bool, place: Place)

  /** Where a thread stands. `Asking` keeps the time at which `getConnnection` was entered, before the lock;
      `Draining` lies between the verdict of `ReleasePtr` and its locked section, `Dropping` between
      deletion and the decrement. */
  datatype Stage =
    | Idle
    | Asking(now: nat)
    | Sorting(purged: seq<nat>, taken: Option<nat>)
    | Connecting
    | Counting(c: nat)
    | Using(c: nat)
    | Draining(c: nat)
    | Dropping(c: nat)

  datatype Limits = Limits(maxAlive: nat, maxRequest: nat, maxSize: nat)

  datatype State = State(clock: nat, pool: seq<nat>, conns: map<nat, Conn>, threads: map<nat, Stage>, total: int)

  datatype Step =
    | Tick(d: nat)
    | Break(c: nat)
    | Ask(t: nat)
    | Purge(t: nat, invalid: seq<nat>, taken: Option<nat>, rest: seq<nat>)
    | Deduct(t: nat)
    | Fail(t: nat)
    | Open(t: nat, c: nat, ssl: bool)
    | CountIn(t: nat)
    | Return(t: nat)
    | Park(t: nat)
    | Drop(t: nat)

  predicate Usable(conn: Conn, now: nat, l: Limits) {
    conn.connected && conn.created + l.maxAlive > now && !conn.busy
  }

  function UsableAt(s: State, now: nat, l: Limits): set<nat> {
    set c | c in s.conns && Usable(s.conns[c], now, l)
  }

  function Elements(q: seq<nat>): set<nat> {
    set c | c in q
  }

  function Go(s: State, t: nat, stage: Stage): State {
    s.(threads := s.threads[t := stage])
  }

  /** The connections after a purge by thread `t`. */
  function Sorted(conns: map<nat, Conn>, t: nat, invalid: seq<nat>, taken: Option<nat>): map<nat, Conn> {
    map c | c in conns ::
      if Some(c) == taken then conns[c].(busy := true, place := Out(t))
      else if c in invalid then conns[c].(place := Purged(t)) else conns[c]
  }

  function PutConn(s: State, c: nat, conn: Conn): State {
    s.(conns := s.conns[c := conn])
  }

  function StageOf(s: State, t: nat): Stage {
    if t in s.threads then s.threads[t] else Idle
  }

  ghost predicate Next(s: State, u: State, step: Step, l: Limits) {
    match step
    case Tick(d) => u == s.(clock := s.clock + d)
    case Break(c) => c in s.conns && u == PutConn(s, c, s.conns[c].(connected := false))
    case Ask(t) => StageOf(s, t).Idle? && u == Go(s, t, Asking(s.clock))
    case Purge(t, invalid, taken, rest) =>
      && StageOf(s, t).Asking? && Purges(s.pool, UsableAt(s, StageOf(s, t).now, l), invalid, taken, rest)
      && u == Go(s.(pool := rest, conns := Sorted(s.conns, t, invalid, taken)), t, Sorting(invalid, taken))
    case Deduct(t) =>
      && StageOf(s, t).Sorting?
      && var Sorting(purged, taken) := StageOf(s, t);
      u == Go(s.(total := s.total - |purged|, conns := s.conns - Elements(purged)), t,
              if taken.Some? then Using(taken.value) else Connecting)
    case Fail(t) => StageOf(s, t).Connecting? && u == Go(s, t, Idle)
    // a TLS connection is created without a time
    case Open(t, c, ssl) =>
      && StageOf(s, t).Connecting? && c !in s.conns
      && u == Go(PutConn(s, c, Conn(if ssl then 0 else s.clock, 0, false, true, Uncounted(t))), t, Counting(c))
    case CountIn(t) =>
      && StageOf(s, t).Counting? && StageOf(s, t).c in s.conns
      && var c := StageOf(s, t).c;
      u == Go(PutConn(s, c, s.conns[c].(place := Out(t))).(total := s.total + 1), t, Using(c))
    case Return(t) =>
      && StageOf(s, t).Using? && StageOf(s, t).c in s.conns
      && var c := StageOf(s, t).c;
      var conn := s.conns[c].(served := s.conns[c].served + 1, busy := false);
      u == Go(PutConn(s, c, conn), t, if Spent(conn, s.clock, l) then Dropping(c) else Draining(c))
    case Park(t) =>
      && StageOf(s, t).Draining? && StageOf(s, t).c in s.conns
      && var c := StageOf(s, t).c;
      u == if |s.pool| < l.maxSize
           then Go(PutConn(s, c, s.conns[c].(place := Pooled)).(pool := s.pool + [c]), t, Idle)
           else Go(s, t, Dropping(c))
    case Drop(t) =>
      && StageOf(s, t).Dropping? && StageOf(s, t).c in s.conns
      && u == Go(s.(conns := s.conns - {StageOf(s, t).c}, total := s.total - 1), t, Idle)
  }

  /** The verdict of `ReleasePtr`. */
  predicate Spent(conn: Conn, now: nat, l: Limits) {
    !conn.connected || conn.created + l.maxAlive <= now || conn.served >= l.maxRequest
  }

  ghost predicate Start(s: State) {
    s.pool == [] && s.conns == map[] && s.total == 0 && s.threads == map[]
  }

  // ---- Invariant ----------------------------------------------------------------------------

  predicate Distinct(q: seq<nat>) {
    forall i, j :: 0 <= i < j < |q| ==> q[i] != q[j]
  }

  /** The thread's stage names `c`, and `c` is marked as this thread's. */
  predicate Linked(stage: Stage, t: nat, c: nat, place: Place) {
    match place
    case Pooled => false
    case Purged(v) => v == t && stage.Sorting? && c in stage.purged
    case Uncounted(v) => v == t && stage.Counting? && stage.c == c
    case Out(v) => v == t && ((stage.Sorting? && stage.taken == Some(c))
                              || ((stage.Using? || stage.Draining? || stage.Dropping?) && stage.c == c))
  }

  ghost predicate ConnOk(s: State, c: nat, l: Limits)
    requires c in s.conns
  {
    var conn := s.conns[c];
    && (conn.place.Pooled? <==> c in s.pool)
    && (conn.place.Pooled? ==> !conn.busy && conn.served < l.maxRequest)
    && (!conn.place.Pooled? ==> Linked(StageOf(s, conn.place.t), conn.place.t, c, conn.place))
    && (conn.served < l.maxRequest || conn.served == 0
        || (conn.place.Out? && StageOf(s, conn.place.t).Dropping? && conn.served <= Most(1, l.maxRequest)))
  }

  function Most(a: nat, b: nat): nat {
    if a >= b then a else b
  }

  /** What a thread's stage names exists and is marked as this thread's. */
  ghost predicate ThreadOk(s: State, t: nat, l: Limits) {
    match StageOf(s, t)
    case Asking(now) => now <= s.clock
    case Sorting(purged, taken) =>
      && Distinct(purged)
      && (forall c :: c in purged ==> c in s.conns && s.conns[c].place == Purged(t))
      && (taken.Some? ==> taken.value in s.conns && s.conns[taken.value].place == Out(t))
    case Counting(c) => c in s.conns && s.conns[c].place == Uncounted(t) && s.conns[c].served == 0
    case Using(c) => c in s.conns && s.conns[c].place == Out(t)
    case Draining(c) =>
      c in s.conns && s.conns[c].place == Out(t) && s.conns[c].served < l.maxRequest && !s.conns[c].busy
    case Dropping(c) => c in s.conns && s.conns[c].place == Out(t)
    case _ => true
  }

  ghost predicate PoolOk(s: State, l: Limits) {
    && Distinct(s.pool) && |s.pool| <= l.maxSize
    && (forall c :: c in s.pool ==> c in s.conns)
  }

  function Counted(conns: map<nat, Conn>): set<nat> {
    set c | c in conns && !conns[c].place.Uncounted?
  }

  ghost predicate Inv(s: State, l: Limits) {
    && PoolOk(s, l)
    && (forall c :: c in s.conns ==> ConnOk(s, c, l))
    && (forall t: nat :: ThreadOk(s, t, l))
    && s.total == |Counted(s.conns)|
  }

  // ---- Preservation -------------------------------------------------------------------------

  lemma {:induction false} SizeOfDistinct(q: seq<nat>)
    requires Distinct(q)
    ensures |Elements(q)| == |q|
  {
    if q == [] {
      assert Elements(q) == {};
    } else {
      SizeOfDistinct(q[1..]);
      assert q[0] !in Elements(q[1..]);
      assert Elements(q) == {q[0]} + Elements(q[1..]);
    }
  }

  lemma RemovedFromCounted(conns: map<nat, Conn>, q: seq<nat>)
    requires Distinct(q) && forall c :: c in q ==> c in conns && !conns[c].place.Uncounted?
    ensures |Counted(conns - Elements(q))| == |Counted(conns)| - |q|
  {
    SizeOfDistinct(q);
    var gone := Elements(q);
    assert Counted(conns - gone) == Counted(conns) - gone;
    assert Counted(conns) == (Counted(conns) - gone) + gone;
  }

  lemma CountedUpdate(conns: map<nat, Conn>, c: nat, conn: Conn)
    ensures |Counted(conns[c := conn])|
            == |Counted(conns)| - (if c in conns && !conns[c].place.Uncounted? then 1 else 0)
               + (if conn.place.Uncounted? then 0 else 1)
  {
    var before, now := Counted(conns), Counted(conns[c := conn]);
    assert before - {c} == now - {c};
    assert c in before ==> before == (before - {c}) + {c};
    assert c in now ==> now == (now - {c}) + {c};
    assert c !in before ==> before - {c} == before;
    assert c !in now ==> now - {c} == now;
  }

  /** The total follows. */
  lemma TotalNext(s: State, u: State, step: Step, l: Limits)
    requires Inv(s, l) && Next(s, u, step, l)
    ensures u.total == |Counted(u.conns)|
  {
    hide ConnOk, PoolOk, Usable, Linked, Purges, UsableAt;
    match step
    case Break(c) => CountedUpdate(s.conns, c, u.conns[c]);
    case Purge(t, invalid, taken, rest) => SortedCounts(s, t, invalid, taken, rest, l);
    case Deduct(t) =>
      assert ThreadOk(s, t, l);
      RemovedFromCounted(s.conns, StageOf(s, t).purged);
    case Open(t, c, ssl) => CountedUpdate(s.conns, c, u.conns[c]);
    case CountIn(t) =>
      assert ThreadOk(s, t, l);
      CountedUpdate(s.conns, StageOf(s, t).c, u.conns[StageOf(s, t).c]);
    case Return(t) =>
      assert ThreadOk(s, t, l);
      CountedUpdate(s.conns, StageOf(s, t).c, u.conns[StageOf(s, t).c]);
    case Park(t) =>
      assert ThreadOk(s, t, l);
      CountedUpdate(s.conns, StageOf(s, t).c, s.conns[StageOf(s, t).c].(place := Pooled));
    case Drop(t) =>
      assert ThreadOk(s, t, l);
      var c := StageOf(s, t).c;
      assert Elements([c]) == {c};
      RemovedFromCounted(s.conns, [c]);
    case _ =>
  }

  /** Everything a purge touches comes from the pool. */
  lemma PurgeFromPool(s: State, t: nat, invalid: seq<nat>, taken: Option<nat>, rest: seq<nat>, l: Limits)
    requires Inv(s, l) && StageOf(s, t).Asking?
    requires Purges(s.pool, UsableAt(s, StageOf(s, t).now, l), invalid, taken, rest)
    ensures forall c :: c in invalid ==>
              c in s.pool && c in s.conns && s.conns[c].place.Pooled? && c !in rest && Some(c) != taken
    ensures taken.Some? ==> taken.value in s.pool && taken.value in s.conns && s.conns[taken.value].place.Pooled?
                            && taken.value !in rest
    ensures forall c :: c in s.pool ==> c in invalid || taken == Some(c) || c in rest
    ensures forall c :: c in rest ==> c in s.pool
    ensures Distinct(invalid) && Distinct(rest) && |rest| <= |s.pool|
  {
    hide Linked, UsableAt, ThreadOk;
    var mid := if taken.Some? then [taken.value] else [];
    DistinctParts(invalid, mid, rest);
    assert taken.Some? ==> taken.value in mid;
    assert forall c :: c in s.pool ==> c in s.conns && ConnOk(s, c, l);
    hide Distinct;
  }

  lemma DistinctParts(a: seq<nat>, m: seq<nat>, b: seq<nat>)
    requires Distinct(a + m + b)
    ensures Distinct(a) && Distinct(b)
    ensures forall x :: x in a + m + b <==> x in a || x in m || x in b
    ensures forall x :: x in a ==> x !in m && x !in b
    ensures forall x :: x in m ==> x !in b
  {
    var q := a + m + b;
    assert forall i :: 0 <= i < |a| ==> q[i] == a[i];
    assert forall i :: 0 <= i < |m| ==> q[|a| + i] == m[i];
    assert forall i :: 0 <= i < |b| ==> q[|a| + |m| + i] == b[i];
  }

  lemma SortedCounts(s: State, t: nat, invalid: seq<nat>, taken: Option<nat>, rest: seq<nat>, l: Limits)
    requires Inv(s, l) && StageOf(s, t).Asking?
    requires Purges(s.pool, UsableAt(s, StageOf(s, t).now, l), invalid, taken, rest)
    ensures Counted(Sorted(s.conns, t, invalid, taken)) == Counted(s.conns)
  {
    PurgeFromPool(s, t, invalid, taken, rest, l);
    hide Inv, Purges, UsableAt;
  }

  lemma PoolNext(s: State, u: State, step: Step, l: Limits)
    requires Inv(s, l) && Next(s, u, step, l)
    ensures PoolOk(u, l)
  {
    hide Purges, UsableAt, Linked, Counted, Usable, Spent;
    match step
    case Purge(t, invalid, taken, rest) => PurgeFromPool(s, t, invalid, taken, rest, l);
    case Deduct(t) => assert ThreadOk(s, t, l);
    case Park(t) => assert ThreadOk(s, t, l);
    case Drop(t) => assert ThreadOk(s, t, l);
    case _ =>
  }

  /** One connection, through a purge. */
  lemma ConnPurge(s: State, u: State, t: nat, invalid: seq<nat>, taken: Option<nat>, rest: seq<nat>, l: Limits, c: nat)
    requires Inv(s, l) && Next(s, u, Purge(t, invalid, taken, rest), l) && c in u.conns
    ensures ConnOk(u, c, l)
  {
    PurgeFromPool(s, t, invalid, taken, rest, l);
    assert c in s.conns && ConnOk(s, c, l);
    hide Purges, UsableAt, Inv, Distinct;
  }

  predicate GivesBack(step: Step) {
    step.Return? || step.Park? || step.Drop?
  }

  lemma ConnNext(s: State, u: State, step: Step, l: Limits, c: nat)
    requires Inv(s, l) && Next(s, u, step, l) && !step.Purge? && c in u.conns
    ensures ConnOk(u, c, l)
  {
    assert c in s.conns ==> ConnOk(s, c, l);
    assert !step.Tick? && !step.Break? ==> ThreadOk(s, step.t, l);
    assert PoolOk(s, l);
    hide Inv, Distinct, Counted, ConnOk, Next, PoolOk, ThreadOk;
    if GivesBack(step) {
      assert c in s.conns by {
        GivenBackKept(s, u, step, l, c);
      }
      ConnGivenBack(s, u, step, l, c);
    } else {
      ConnTaken(s, u, step, l, c);
    }
  }

  lemma GivenBackKept(s: State, u: State, step: Step, l: Limits, c: nat)
    requires Next(s, u, step, l) && GivesBack(step) && c in u.conns
    ensures c in s.conns
  {
  }

  lemma ConnGivenBack(s: State, u: State, step: Step, l: Limits, c: nat)
    requires Next(s, u, step, l) && GivesBack(step) && c in s.conns && c in u.conns
    requires ConnOk(s, c, l) && ThreadOk(s, step.t, l)
    ensures ConnOk(u, c, l)
  {
  }

  lemma ConnTaken(s: State, u: State, step: Step, l: Limits, c: nat)
    requires Next(s, u, step, l) && !GivesBack(step) && !step.Purge? && c in u.conns
    requires c in s.conns ==> ConnOk(s, c, l)
    requires !step.Tick? && !step.Break? ==> ThreadOk(s, step.t, l)
    requires PoolOk(s, l)
    ensures ConnOk(u, c, l)
  {
    hide Distinct;
  }

  lemma ThreadPurge(s: State, u: State, t: nat, invalid: seq<nat>, taken: Option<nat>, rest: seq<nat>, l: Limits, v: nat)
    requires Inv(s, l) && Next(s, u, Purge(t, invalid, taken, rest), l)
    ensures ThreadOk(u, v, l)
  {
    PurgeFromPool(s, t, invalid, taken, rest, l);
    assert ThreadOk(s, v, l);
    hide Purges, UsableAt, Inv, ConnOk, PoolOk;
  }

  /** The thread that takes the step. */
  lemma OwnThreadNext(s: State, u: State, step: Step, l: Limits)
    requires Inv(s, l) && Next(s, u, step, l) && !step.Purge? && !step.Tick? && !step.Break?
    ensures ThreadOk(u, step.t, l)
  {
    assert ThreadOk(s, step.t, l);
    if step.Return? {
      assert ConnOk(s, StageOf(s, step.t).c, l);
    }
    if step.Deduct? {
      assert StageOf(s, step.t).taken.Some? ==> StageOf(s, step.t).taken.value !in StageOf(s, step.t).purged;
    }
    hide Inv, Distinct, Counted, ConnOk, PoolOk, Linked, Usable;
  }

  /** Connections marked as another thread's are not touched. */
  lemma Untouched(s: State, u: State, step: Step, l: Limits, v: nat, c: nat)
    requires Next(s, u, step, l) && !step.Purge? && (step.Tick? || step.Break? || (v != step.t && ThreadOk(s, step.t, l)))
    requires c in s.conns && s.conns[c].place in {Purged(v), Uncounted(v), Out(v)}
    ensures c in u.conns && u.conns[c].(connected := false) == s.conns[c].(connected := false)
  {
    hide Usable, Spent;
  }

  lemma OtherStage(s: State, u: State, step: Step, l: Limits, v: nat)
    requires Next(s, u, step, l) && (step.Tick? || step.Break? || v != step.t)
    ensures StageOf(u, v) == StageOf(s, v)
  {
    hide Purges, Usable, Spent;
  }

  lemma OtherThreadNext(s: State, u: State, step: Step, l: Limits, v: nat)
    requires Inv(s, l) && Next(s, u, step, l) && !step.Purge? && (step.Tick? || step.Break? || v != step.t)
    ensures ThreadOk(u, v, l)
  {
    assert ThreadOk(s, v, l);
    assert !step.Tick? && !step.Break? ==> ThreadOk(s, step.t, l);
    hide Inv, Next;
    OtherStage(s, u, step, l, v);
    forall c | c in s.conns && s.conns[c].place in {Purged(v), Uncounted(v), Out(v)}
      ensures c in u.conns && u.conns[c].(connected := false) == s.conns[c].(connected := false)
    {
      Untouched(s, u, step, l, v, c);
    }
  }

  lemma InvNext(s: State, u: State, step: Step, l: Limits)
    requires Inv(s, l) && Next(s, u, step, l)
    ensures Inv(u, l)
  {
    hide Next, ConnOk, ThreadOk, PoolOk, Counted;
    TotalNext(s, u, step, l);
    PoolNext(s, u, step, l);
    forall c | c in u.conns
      ensures ConnOk(u, c, l)
    {
      if step.Purge? {
        ConnPurge(s, u, step.t, step.invalid, step.taken, step.rest, l, c);
      } else {
        ConnNext(s, u, step, l, c);
      }
    }
    forall t: nat
      ensures ThreadOk(u, t, l)
    {
      if step.Purge? {
        ThreadPurge(s, u, step.t, step.invalid, step.taken, step.rest, l, t);
      } else if step.Tick? || step.Break? || t != step.t {
        OtherThreadNext(s, u, step, l, t);
      } else {
        OwnThreadNext(s, u, step, l);
      }
    }
  }

  ghost predicate Behavior(run: seq<State>, steps: seq<Step>, l: Limits) {
    && |run| == |steps| + 1 && Start(run[0])
    && forall i :: 0 <= i < |steps| ==> Next(run[i], run[i + 1], steps[i], l)
  }

  lemma {:induction false} InvHolds(run: seq<State>, steps: seq<Step>, l: Limits, n: nat)
    requires Behavior(run, steps, l) && n < |run|
    ensures Inv(run[n], l)
  {
    if n == 0 {
      assert Counted(run[0].conns) == {};
    } else {
      InvHolds(run, steps, l, n - 1);
      hide Inv, Next;
      InvNext(run[n - 1], run[n], steps[n - 1], l);
    }
  }

  // ---- What every run guarantees ------------------------------------------------------------

  /** The connections handed out to threads. */
  function HandedOut(conns: map<nat, Conn>): set<nat> {
    set c | c in conns && conns[c].place.Out?
  }

  /** The connections that a purging thread has yet to deduct. */
  function Undeducted(conns: map<nat, Conn>): set<nat> {
    set c | c in conns && conns[c].place.Purged?
  }

  lemma CountedParts(s: State, l: Limits)
    requires Inv(s, l)
    ensures s.total == |s.pool| + |HandedOut(s.conns)| + |Undeducted(s.conns)|
  {
    hide ThreadOk, Linked;
    var pooled, out, gone := Elements(s.pool), HandedOut(s.conns), Undeducted(s.conns);
    SizeOfDistinct(s.pool);
    forall c | c in s.conns
      ensures c in pooled <==> s.conns[c].place.Pooled?
    {
      assert ConnOk(s, c, l);
    }
    assert Counted(s.conns) == pooled + out + gone;
    assert pooled !! out && (pooled + out) !! gone;
  }

  /** In every state the total is the number of pooled connections, of those handed out, and of those a
      purging thread has yet to deduct; so when no thread is in the middle of a purge it is pooled plus
      handed out. The pool never exceeds its size. */
  lemma TotalConserved(run: seq<State>, steps: seq<Step>, l: Limits, n: nat)
    requires Behavior(run, steps, l) && n < |run|
    ensures run[n].total == |run[n].pool| + |HandedOut(run[n].conns)| + |Undeducted(run[n].conns)|
    ensures (forall t: nat :: !StageOf(run[n], t).Sorting?) ==> Undeducted(run[n].conns) == {}
    ensures |run[n].pool| <= l.maxSize
  {
    InvHolds(run, steps, l, n);
    var s := run[n];
    hide Behavior;
    CountedParts(s, l);
    if forall t: nat :: !StageOf(s, t).Sorting? {
      forall c | c in s.conns
        ensures !s.conns[c].place.Purged?
      {
        assert ConnOk(s, c, l);
      }
    }
  }

  predicate Holds(s: State, t: nat, c: nat) {
    match StageOf(s, t)
    case Using(d) => c == d
    case Draining(d) => c == d
    case Dropping(d) => c == d
    case Counting(d) => c == d
    case Sorting(purged, taken) => taken == Some(c)
    case _ => false
  }

  /** No connection has two holders, none in use is pooled, a pooled one is idle, and none serves more than
      `max(1, maxRequest)` requests. */
  lemma OneHolder(run: seq<State>, steps: seq<Step>, l: Limits, n: nat, c: nat, t: nat, v: nat)
    requires Behavior(run, steps, l) && n < |run|
    ensures Holds(run[n], t, c) && Holds(run[n], v, c) ==> t == v
    ensures Holds(run[n], t, c) ==> c !in run[n].pool
    ensures c in run[n].pool ==> c in run[n].conns && !run[n].conns[c].busy
    ensures c in run[n].conns ==> run[n].conns[c].served <= Most(1, l.maxRequest)
  {
    InvHolds(run, steps, l, n);
    var s := run[n];
    hide Behavior, Counted, Distinct;
    assert ThreadOk(s, t, l) && ThreadOk(s, v, l);
    if c in s.conns {
      assert ConnOk(s, c, l);
    }
  }

  /** Younger than `maxAlive`. */
  predicate Young(conn: Conn, clock: nat, l: Limits) {
    conn.created + l.maxAlive > clock
  }

  /** A pooled connection that is handed out again is the first in the pool that is connected and was young
      when `getConnnection` was entered; those before it were disconnected or too old, never merely busy. */
  lemma ReusedIsFresh(run: seq<State>, steps: seq<Step>, l: Limits, n: nat, t: nat,
                      invalid: seq<nat>, taken: Option<nat>, rest: seq<nat>)
    requires Behavior(run, steps, l) && n < |steps| && steps[n] == Purge(t, invalid, taken, rest)
    requires |run| == |steps| + 1
    ensures var s := run[n];
      && StageOf(s, t).Asking? && StageOf(s, t).now <= s.clock
      && (taken.Some? ==>
            taken.value in s.conns && s.conns[taken.value].connected && Young(s.conns[taken.value], StageOf(s, t).now, l))
      && (forall i :: 0 <= i < |invalid| ==>
            invalid[i] in s.conns
            && (!s.conns[invalid[i]].connected || !Young(s.conns[invalid[i]], StageOf(s, t).now, l)))
      && s.pool == invalid + (if taken.Some? then [taken.value] else []) + rest
  {
    InvHolds(run, steps, l, n);
    var s := run[n];
    assert Next(s, run[n + 1], steps[n], l);
    assert ThreadOk(s, t, l);
    PurgeFromPool(s, t, invalid, taken, rest, l);
    forall i | 0 <= i < |invalid|
      ensures !s.conns[invalid[i]].busy
    {
      assert ConnOk(s, invalid[i], l);
    }
  }
}
