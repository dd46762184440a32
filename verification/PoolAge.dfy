/** How old a pooled connection can be when it is handed out: the clock is read before the lock is taken. */
module PoolAge {
  import opened Options
  import opened ConnectionPool
  import opened PoolRuns

  // ---- What else holds of pooled connections ------------------------------------------------

  /** A connection in the pool, or on its way there, has served, and some connection can be young. */
  predicate Worn(conn: Conn, l: Limits) {
    conn.served > 0 && l.maxAlive > 0
  }

  ghost predicate WornInv(s: State, l: Limits) {
    && (forall c :: c in s.conns ==> s.conns[c].created <= s.clock && (s.conns[c].place.Pooled? ==> Worn(s.conns[c], l)))
    && (forall t :: t in s.threads && s.threads[t].Draining? ==>
          s.threads[t].c in s.conns && Worn(s.conns[s.threads[t].c], l))
  }

  lemma WornNext(s: State, u: State, step: Step, l: Limits)
    requires Inv(s, l) && WornInv(s, l) && Next(s, u, step, l)
    ensures WornInv(u, l)
  {
    hide Purges, UsableAt, Counted, PoolOk, Usable, Linked;
    match step
    case Purge(t, invalid, taken, rest) => WornPurge(s, u, t, invalid, taken, rest, l);
    case Tick(d) =>
    case Break(c) =>
    case _ => WornOwn(s, u, step, l);
  }

  lemma WornPurge(s: State, u: State, t: nat, invalid: seq<nat>, taken: Option<nat>, rest: seq<nat>, l: Limits)
    requires Inv(s, l) && WornInv(s, l) && Next(s, u, Purge(t, invalid, taken, rest), l)
    ensures WornInv(u, l)
  {
    hide Inv, Purges, UsableAt;
  }

  lemma WornOwn(s: State, u: State, step: Step, l: Limits)
    requires Inv(s, l) && WornInv(s, l) && Next(s, u, step, l) && !step.Purge? && !step.Tick? && !step.Break?
    ensures WornInv(u, l)
  {
    assert ThreadOk(s, step.t, l);
    forall t | t in u.threads && u.threads[t].Draining?
      ensures u.threads[t].c in u.conns && Worn(u.conns[u.threads[t].c], l)
    {
      assert ThreadOk(s, t, l);
      hide Inv, ThreadOk;
    }
    hide Inv;
  }

  lemma {:induction false} WornHolds(run: seq<State>, steps: seq<Step>, l: Limits, n: nat)
    requires Behavior(run, steps, l) && n < |run|
    ensures WornInv(run[n], l)
  {
    if n > 0 {
      WornHolds(run, steps, l, n - 1);
      InvHolds(run, steps, l, n - 1);
      hide Inv, Next, WornInv;
      WornNext(run[n - 1], run[n], steps[n - 1], l);
    }
  }

  // ---- Too old when taken -------------------------------------------------------------------

  /** Step `n` hands out the pooled connection `c`, `wait` after the clock was read. */
  ghost predicate Reuses(run: seq<State>, steps: seq<Step>, l: Limits, n: nat, c: nat, wait: nat) {
    && Behavior(run, steps, l) && n < |steps| < |run| && steps[n].Purge? && steps[n].taken == Some(c)
    && StageOf(run[n], steps[n].t).Asking? && StageOf(run[n], steps[n].t).now + wait == run[n].clock
    && c in run[n].conns
  }

  /** Under these limits connections are reused at all. */
  predicate Pools(l: Limits) {
    l.maxAlive > 0 && l.maxRequest > 1 && l.maxSize > 0
  }

  lemma ReuseNeedsPool(run: seq<State>, steps: seq<Step>, l: Limits, n: nat, c: nat, wait: nat)
    requires Reuses(run, steps, l, n, c, wait)
    ensures Pools(l) && Young(run[n].conns[c], run[n].clock - wait, l)
  {
    var s, step := run[n], steps[n];
    InvHolds(run, steps, l, n);
    WornHolds(run, steps, l, n);
    ReusedIsFresh(run, steps, l, n, step.t, step.invalid, step.taken, step.rest);
    assert c in s.pool && ConnOk(s, c, l);
    hide Behavior;
  }

  /** No connection is ever too old when it is handed out after a wait of `wait` for the lock, exactly when the
      lock was free at once, or connections are never reused. */
  lemma NeverTooOldIff(l: Limits, wait: nat)
    ensures (forall run: seq<State>, steps: seq<Step>, n: nat, c: nat ::
               Reuses(run, steps, l, n, c, wait) ==> Young(run[n].conns[c], run[n].clock, l))
            <==> wait == 0 || !Pools(l)
  {
    if wait == 0 || !Pools(l) {
      forall run: seq<State>, steps: seq<Step>, n: nat, c: nat | Reuses(run, steps, l, n, c, wait)
        ensures Young(run[n].conns[c], run[n].clock, l)
      {
        ReuseNeedsPool(run, steps, l, n, c, wait);
      }
    } else {
      var run, steps := TooOldReused(l, wait);
    }
  }

  // ---- A connection that is too old is reused -----------------------------------------------

  /** One thread opens a connection and returns it; another asks for one at the last moment of the
      connection's life, waits for the lock, and gets it. */
  function Script(l: Limits, wait: nat): seq<Step>
    requires Pools(l)
  {
    [Ask(0), Purge(0, [], None, []), Deduct(0), Open(0, 7, false), CountIn(0), Return(0), Park(0),
     Tick(l.maxAlive - 1), Ask(1), Tick(wait), Purge(1, [], Some(7), [])]
  }

  function Scene(l: Limits, wait: nat, n: nat): State
    requires Pools(l)
  {
    var s := State(0, [], map[], map[], 0);
    var conn := Conn(0, 0, false, true, Out(0));
    var late := l.maxAlive - 1;
    var pooled := State(late, [7], map[7 := conn.(served := 1, place := Pooled)], map[0 := Idle], 1);
    match n
    case 0 => s
    case 1 => s.(threads := map[0 := Asking(0)])
    case 2 => s.(threads := map[0 := Sorting([], None)])
    case 3 => s.(threads := map[0 := Connecting])
    case 4 => s.(threads := map[0 := Counting(7)], conns := map[7 := conn.(place := Uncounted(0))])
    case 5 => s.(threads := map[0 := Using(7)], conns := map[7 := conn], total := 1)
    case 6 => s.(threads := map[0 := Draining(7)], conns := map[7 := conn.(served := 1)], total := 1)
    case 7 => pooled.(clock := 0)
    case 8 => pooled
    case 9 => pooled.(threads := map[0 := Idle, 1 := Asking(late)])
    case 10 => pooled.(threads := map[0 := Idle, 1 := Asking(late)], clock := late + wait)
    case _ =>
      State(late + wait, [], map[7 := Conn(0, 1, true, true, Out(1))], map[0 := Idle, 1 := Sorting([], Some(7))], 1)
  }

  lemma SceneOpens(l: Limits, wait: nat, n: nat)
    requires Pools(l) && n < 4
    ensures Next(Scene(l, wait, n), Scene(l, wait, n + 1), Script(l, wait)[n], l)
  {
    hide Usable, Spent;
    if n == 2 {
      assert Scene(l, wait, 2).conns - Elements([]) == map[];
    }
  }

  lemma SceneReturns(l: Limits, wait: nat, n: nat)
    requires Pools(l) && 4 <= n < 7
    ensures Next(Scene(l, wait, n), Scene(l, wait, n + 1), Script(l, wait)[n], l)
  {
    hide Purges, UsableAt;
  }

  lemma SceneReuses(l: Limits, wait: nat, n: nat)
    requires Pools(l) && 7 <= n < 11
    ensures Next(Scene(l, wait, n), Scene(l, wait, n + 1), Script(l, wait)[n], l)
  {
    if n == 10 {
      var s := Scene(l, wait, 10);
      assert 7 in UsableAt(s, l.maxAlive - 1, l);
      assert Sorted(s.conns, 1, [], Some(7)) == Scene(l, wait, 11).conns;
    }
  }

  /** Under any limits that let connections be reused, and after any wait at all, the last step hands out a
      connection that is too old. */
  lemma TooOldReused(l: Limits, wait: nat) returns (run: seq<State>, steps: seq<Step>)
    requires Pools(l) && wait > 0
    ensures Reuses(run, steps, l, 10, 7, wait) && !Young(run[10].conns[7], run[10].clock, l)
  {
    run, steps := seq(12, n requires 0 <= n => Scene(l, wait, n)), Script(l, wait);
    assert |steps| == 11 && Start(run[0]) && run[10] == Scene(l, wait, 10);
    forall n | 0 <= n < |steps|
      ensures Next(run[n], run[n + 1], steps[n], l)
    {
      hide Next, Scene, Script;
      if n < 4 {
        SceneOpens(l, wait, n);
      } else if n < 7 {
        SceneReturns(l, wait, n);
      } else {
        SceneReuses(l, wait, n);
      }
    }
  }
}
