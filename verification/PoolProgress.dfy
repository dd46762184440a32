/** No call on the connection pool gets stuck, and broken connections are not handed out again. */
module PoolProgress {
  import opened Options
  import opened ConnectionPool
  import opened PoolRuns

  // ---- Every call can end -------------------------------------------------------------------

  /** How far a thread is from the end of its call. */
  function Rank(stage: Stage): nat {
    match stage
    case Idle => 0
    case Dropping(_) => 1
    case Connecting => 1
    case Draining(_) => 2
    case Using(_) => 3
    case Counting(_) => 4
    case Sorting(_, _) => 5
    case Asking(_) => 6
  }

  /** A step of thread `t` that needs nobody else, and ends a call rather than starting one. */
  predicate EndsCall(step: Step, t: nat) {
    && (step.Purge? || step.Deduct? || step.Fail? || step.CountIn? || step.Return? || step.Park? || step.Drop?)
    && step.t == t
  }

  lemma {:induction false} PurgeExists<T>(pool: seq<T>, usable: set<T>)
      returns (invalid: seq<T>, taken: Option<T>, rest: seq<T>)
    ensures Purges(pool, usable, invalid, taken, rest)
    decreases |pool|
  {
    if pool == [] {
      invalid, taken, rest := [], None, [];
    } else if pool[0] in usable {
      invalid, taken, rest := [], Some(pool[0]), pool[1..];
      assert pool == [] + [pool[0]] + pool[1..];
    } else {
      invalid, taken, rest := PurgeExists(pool[1..], usable);
      assert pool == [pool[0]] + pool[1..];
      invalid := [pool[0]] + invalid;
    }
  }

  lemma StepOn(s: State, t: nat, l: Limits) returns (u: State, step: Step)
    requires Inv(s, l) && !StageOf(s, t).Idle?
    ensures Next(s, u, step, l) && EndsCall(step, t) && Rank(StageOf(u, t)) < Rank(StageOf(s, t))
  {
    assert ThreadOk(s, t, l);
    hide Inv, Counted, ConnOk, PoolOk, Distinct, Purges, Spent, UsableAt;
    match StageOf(s, t)
    case Asking(now) =>
      var invalid, taken, rest := PurgeExists(s.pool, UsableAt(s, now, l));
      step := Purge(t, invalid, taken, rest);
      u := Go(s.(pool := rest, conns := Sorted(s.conns, t, invalid, taken)), t, Sorting(invalid, taken));
    case Sorting(purged, taken) =>
      step := Deduct(t);
      u := Go(s.(total := s.total - |purged|, conns := s.conns - Elements(purged)), t,
              if taken.Some? then Using(taken.value) else Connecting);
    case Connecting =>
      step := Fail(t);
      u := Go(s, t, Idle);
    case Counting(c) =>
      step := CountIn(t);
      u := Go(PutConn(s, c, s.conns[c].(place := Out(t))).(total := s.total + 1), t, Using(c));
    case Using(c) =>
      step := Return(t);
      var conn := s.conns[c].(served := s.conns[c].served + 1, busy := false);
      u := Go(PutConn(s, c, conn), t, if Spent(conn, s.clock, l) then Dropping(c) else Draining(c));
    case Draining(c) =>
      step := Park(t);
      u := if |s.pool| < l.maxSize
           then Go(PutConn(s, c, s.conns[c].(place := Pooled)).(pool := s.pool + [c]), t, Idle)
           else Go(s, t, Dropping(c));
    case Dropping(c) =>
      step := Drop(t);
      u := Go(s.(conns := s.conns - {c}, total := s.total - 1), t, Idle);
  }

  /** From every reachable state, a thread that is anywhere in a call can finish it by steps of its own. */
  lemma {:induction false} EveryCallCanEnd(s: State, t: nat, l: Limits) returns (run: seq<State>, steps: seq<Step>)
    requires Inv(s, l)
    ensures |run| == |steps| + 1 && run[0] == s && StageOf(run[|steps|], t).Idle? && Inv(run[|steps|], l)
    ensures forall i :: 0 <= i < |steps| ==> Next(run[i], run[i + 1], steps[i], l) && EndsCall(steps[i], t)
    decreases Rank(StageOf(s, t))
  {
    hide Inv, Next, EndsCall, StageOf;
    if StageOf(s, t) == Idle {
      run, steps := [s], [];
    } else {
      var u, step := StepOn(s, t, l);
      InvNext(s, u, step, l);
      run, steps := EveryCallCanEnd(u, t, l);
      run, steps := [s] + run, [step] + steps;
    }
  }

  // ---- The life of one connection -----------------------------------------------------------

  /** Between steps `k` and `n` no connection is opened under the name `c`: it is the same one all along. */
  predicate NotReopened(steps: seq<Step>, k: nat, n: nat, c: nat)
    requires n <= |steps|
  {
    forall i :: k < i < n ==> !(steps[i].Open? && steps[i].c == c)
  }

  /** What a step keeps of a connection: when it was created, and that it is broken. */
  lemma ConnKept(s: State, u: State, step: Step, l: Limits, c: nat)
    requires Next(s, u, step, l) && c in u.conns && !(step.Open? && step.c == c)
    ensures c in s.conns && u.conns[c].created == s.conns[c].created && (!s.conns[c].connected ==> !u.conns[c].connected)
  {
    hide Purges, UsableAt, Usable, Spent;
  }

  /** A connection keeps the creation time it was opened with: the clock's, or zero over TLS. */
  lemma {:induction false} CreatedWhenOpened(run: seq<State>, steps: seq<Step>, l: Limits, k: nat, n: nat,
                                             t: nat, c: nat, ssl: bool)
    requires Behavior(run, steps, l) && k < n <= |steps| < |run| && steps[k] == Open(t, c, ssl)
    requires NotReopened(steps, k, n, c) && c in run[n].conns
    ensures run[n].conns[c].created == if ssl then 0 else run[k].clock
  {
    assert Next(run[n - 1], run[n], steps[n - 1], l);
    if n > k + 1 {
      hide Next;
      ConnKept(run[n - 1], run[n], steps[n - 1], l, c);
      CreatedWhenOpened(run, steps, l, k, n - 1, t, c, ssl);
    }
  }

  /** So a connection over TLS is handed out again only by calls that began before the clock reached
      `maxAliveTime`, whenever it was opened. */
  lemma TlsSoonTooOld(run: seq<State>, steps: seq<Step>, l: Limits, k: nat, n: nat, t: nat, c: nat)
    requires Behavior(run, steps, l) && k < n < |steps| < |run| && steps[k] == Open(t, c, true)
    requires NotReopened(steps, k, n, c) && steps[n].Purge? && steps[n].taken == Some(c)
    ensures StageOf(run[n], steps[n].t).Asking? && StageOf(run[n], steps[n].t).now < l.maxAlive
  {
    var step := steps[n];
    ReusedIsFresh(run, steps, l, n, step.t, step.invalid, step.taken, step.rest);
    hide Behavior;
    CreatedWhenOpened(run, steps, l, k, n, t, c, true);
  }

  lemma {:induction false} StaysBroken(run: seq<State>, steps: seq<Step>, l: Limits, k: nat, n: nat, c: nat)
    requires Behavior(run, steps, l) && k < n <= |steps| < |run| && steps[k] == Break(c)
    requires NotReopened(steps, k, n, c) && c in run[n].conns
    ensures !run[n].conns[c].connected
  {
    assert Next(run[n - 1], run[n], steps[n - 1], l);
    if n > k + 1 {
      hide Next;
      ConnKept(run[n - 1], run[n], steps[n - 1], l, c);
      StaysBroken(run, steps, l, k, n - 1, c);
    }
  }

  /** A connection that the peer has closed is never handed out again. */
  lemma BrokenIsNotReused(run: seq<State>, steps: seq<Step>, l: Limits, k: nat, n: nat, c: nat)
    requires Behavior(run, steps, l) && k < n < |steps| < |run| && steps[k] == Break(c) && NotReopened(steps, k, n, c)
    ensures !(steps[n].Purge? && steps[n].taken == Some(c))
  {
    if steps[n].Purge? {
      var step := steps[n];
      ReusedIsFresh(run, steps, l, n, step.t, step.invalid, step.taken, step.rest);
      BrokenOrGone(run, steps, l, k, n, c);
    }
  }

  lemma BrokenOrGone(run: seq<State>, steps: seq<Step>, l: Limits, k: nat, n: nat, c: nat)
    requires Behavior(run, steps, l) && k < n <= |steps| < |run| && steps[k] == Break(c) && NotReopened(steps, k, n, c)
    ensures c in run[n].conns ==> !run[n].conns[c].connected
  {
    if c in run[n].conns {
      StaysBroken(run, steps, l, k, n, c);
    }
  }
}
