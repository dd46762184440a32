/** When shutdown is final, and what workers leave behind when they exit. */
module Shutdown {
  import opened Options
  import opened EventTable
  import opened Reactor
  import opened Dispatching

  // ---- Quiet states -------------------------------------------------------------------------

  /** Worker `w` has given up a yielded fiber and not yet submitted it again, or has taken expired callbacks
      and not yet submitted them. */
  predicate InHand(s: State, w: nat) {
    w in s.workers && (s.workers[w].at.Requeueing? || (s.workers[w].at.Swept? && s.workers[w].at.cbs != []))
  }

  ghost predicate NothingInHand(s: State) {
    forall w: nat :: !InHand(s, w)
  }

  ghost predicate Quiet(s: State) {
    Stopping(s) && NothingInHand(s)
  }

  /** No work is outstanding: nothing is queued, registered, armed, running or in hand, and every fiber has
      run to its end, or lost its registration to `delEvent`. */
  ghost predicate Settled(s: State) {
    && s.queue == [] && s.table.pending == 0 && s.timers == map[] && Busy(s.workers) == {} && NothingInHand(s)
    && forall f :: f in s.fibers ==> s.fibers[f].mode == Done || s.fibers[f] == FiberRec(Parked, Dropped)
  }

  /** A stretch of a run. */
  ghost predicate Path(run: seq<State>, steps: seq<Step>) {
    |run| == |steps| + 1 && forall i :: 0 <= i < |steps| ==> Next(run[i], run[i + 1], steps[i])
  }

  lemma BehaviorPath(run: seq<State>, steps: seq<Step>)
    requires Behavior(run, steps)
    ensures Path(run, steps)
  {
    hide Next, Start;
  }

  lemma PathStep(run: seq<State>, steps: seq<Step>, n: nat)
    requires Path(run, steps) && n < |steps|
    ensures Next(run[n], run[n + 1], steps[n])
  {
    hide Next;
  }

  lemma NoneBusy(s: State, w: nat)
    requires Inv(s) && Stopping(s) && w in s.workers
    ensures !s.workers[w].at.Holding? && !s.workers[w].at.Running?
  {
    hide Book, Tracked, Consistent;
    assert Busy(s.workers) == {};
    assert w !in Busy(s.workers);
  }

  lemma NoneRegistered(t: Table, fd: nat)
    requires Book(t) && t.pending == 0
    ensures !Has(t, fd, READ) && !Has(t, fd, WRITE) && (fd < |t.contexts| ==> t.contexts[fd].events == {})
  {
    if fd < |t.contexts| {
      SumBitsZero(t.contexts, fd);
    }
  }

  /** Where nothing is registered, steps on the table other than registrations move nothing. */
  lemma TableIdle(s: State, t: State, step: Step)
    requires Book(s.table) && s.table.pending == 0 && Next(s, t, step) && OnTable(step) && !Registers(step)
    ensures t.table == s.table && t.queue == s.queue && t.workers == s.workers
    ensures t.timers == s.timers && t.active == s.active && t.stopAsked == s.stopAsked
  {
    NoneRegistered(s.table, step.fd);
    hide Book, RunsFree, Waiting, Add, Entries;
    assert s.queue + [] == s.queue;
  }

  lemma QuietNext(s: State, t: State, step: Step)
    requires Inv(s) && Quiet(s) && Next(s, t, step) && !IsOutside(step)
    ensures Quiet(t)
  {
    assert Book(s.table);
    if OnTable(step) {
      if Registers(step) {
        NoneBusy(s, step.w);
      } else {
        TableIdle(s, t, step);
        hide Next;
        assert forall w: nat :: InHand(t, w) == InHand(s, w);
      }
    } else {
      QuietElsewhere(s, t, step);
    }
  }

  lemma QuietElsewhere(s: State, t: State, step: Step)
    requires Inv(s) && Quiet(s) && Next(s, t, step) && !IsOutside(step) && !OnTable(step)
    ensures Quiet(t)
  {
    if step.AskStop? {
      assert forall w: nat :: InHand(t, w) == InHand(s, w);
    } else {
      var w := step.w;
      assert !InHand(s, w);
      if w in s.workers {
        NoneBusy(s, w);
      }
      hide Inv, Book, Busy, Eligible;
      assert forall v: nat :: v != w ==> InHand(t, v) == InHand(s, v);
    }
  }

  /** Once shutdown is called for, nothing is queued, running, pending or armed, and no worker has a task
      in hand, this stays so without outside submissions. */
  lemma {:induction false} ShutdownStable(run: seq<State>, steps: seq<Step>, i: nat, n: nat)
    requires Path(run, steps) && i <= n <= |steps| < |run| && Inv(run[i]) && Quiet(run[i])
    requires forall k :: i <= k < n ==> !IsOutside(steps[k])
    ensures Inv(run[n]) && Quiet(run[n])
  {
    hide Quiet, Inv, Next, Path;
    if n > i {
      ShutdownStable(run, steps, i, n - 1);
      PathStep(run, steps, n - 1);
      InvNext(run[n - 1], run[n], steps[n - 1]);
      QuietNext(run[n - 1], run[n], steps[n - 1]);
    }
  }

  // ---- stopping() and what follows it -------------------------------------------------------

  /** A step that a worker with a task in hand can take next. */
  lemma HandEmpties(s: State, w: nat) returns (t: State, step: Step)
    requires InHand(s, w)
    ensures Next(s, t, step) && !IsOutside(step) && !Stopping(t)
  {
    if s.workers[w].at.Requeueing? {
      step := Requeue(w);
      t := Enqueue(Move(s, w, Scanning), Entry(Fiber(s.workers[w].at.f), None));
    } else {
      step := SubmitSwept(w);
      t := Move(s.(queue := s.queue + Entries(Calls(s.workers[w].at.cbs))), w, Polling);
    }
    assert t.queue != [];
  }

  /** `stopping()` alone is not final: it is, exactly when no worker has a task in hand. */
  lemma StoppingFinalIffQuiet(s: State)
    requires Inv(s) && Stopping(s)
    ensures NothingInHand(s) <==> forall t, step :: Next(s, t, step) && !IsOutside(step) ==> Stopping(t)
  {
    hide Inv, Next, Stopping, InHand;
    if NothingInHand(s) {
      forall t, step | Next(s, t, step) && !IsOutside(step)
        ensures Stopping(t)
      {
        QuietNext(s, t, step);
      }
    } else {
      var w: nat :| InHand(s, w);
      var t, step := HandEmpties(s, w);
    }
  }

  /** Shutdown is final exactly when it was called for and no work is outstanding. */
  lemma NothingOutstanding(s: State)
    requires Inv(s)
    ensures Quiet(s) <==> s.stopAsked && Settled(s)
  {
    assert s.active == |Busy(s.workers)|;
    if Quiet(s) {
      forall f | f in s.fibers
        ensures s.fibers[f].mode == Done || s.fibers[f] == FiberRec(Parked, Dropped)
      {
        FiberSettled(s, f);
      }
    }
    hide Inv, Busy, NothingInHand;
  }

  lemma FiberSettled(s: State, f: nat)
    requires Inv(s) && Quiet(s) && f in s.fibers
    ensures s.fibers[f].mode == Done || s.fibers[f] == FiberRec(Parked, Dropped)
  {
    assert Tracked(s, f) && Consistent(s, f) && Book(s.table);
    NoneWaits(s.table, Fiber(f));
    NoneQueued(Fiber(f));
    forall w | w in s.workers
      ensures !s.workers[w].at.Holding? && !s.workers[w].at.Running? && !s.workers[w].at.Requeueing?
    {
      NoneBusy(s, w);
      assert !InHand(s, w);
    }
    hide Inv, Quiet, Book, Busy, Queueing, Waiting;
  }

  lemma NoneQueued(x: Task)
    ensures Queueing([], x) == 0
  {
  }

  lemma NoneWaits(t: Table, x: Task)
    requires Book(t) && t.pending == 0
    ensures Waiting(t.contexts, x) == 0
  {
    forall fd | 0 <= fd < |t.contexts|
      ensures t.contexts[fd] == EMPTY
    {
      SumBitsZero(t.contexts, fd);
    }
    assert t.contexts == [] + seq(|t.contexts|, _ => EMPTY);
    WaitingGrow([], |t.contexts|, x);
  }

  // ---- Workers exit -------------------------------------------------------------------------

  /** Worker `w` has seen `stopping()` hold. It never asks again. */
  predicate Told(s: State, w: nat) {
    w in s.workers && (s.workers[w].idleDone || s.workers[w].at.Exited?)
  }

  lemma ToldNext(s: State, t: State, step: Step, w: nat)
    requires Next(s, t, step) && Told(t, w)
    ensures Told(s, w) || step == StopPolling(w)
  {
    if OnTable(step) || Submits(step) {
      hide Next;
      WorkersKept(s, t, step);
    } else {
      OneWorkerTold(s, t, step, step.w);
      OneWorkerMoves(s, t, step, step.w);
      hide Next;
    }
  }

  lemma OneWorkerTold(s: State, t: State, step: Step, w: nat)
    requires Next(s, t, step) && !OnTable(step) && !Submits(step) && w == step.w
    ensures Told(t, w) ==> Told(s, w) || step == StopPolling(w)
  {
    hide Entries, Calls, Callbacks, Eligible, NoneEligible, Stopping;
  }

  lemma {:induction false} ToldByStep(run: seq<State>, steps: seq<Step>, n: nat, w: nat) returns (k: nat)
    requires Behavior(run, steps) && n < |run| && Told(run[n], w)
    ensures k < n && steps[k] == StopPolling(w)
  {
    hide Next, Told;
    if n == 0 {
      NoneToldYet(run[0], w);
    } else {
      k := n - 1;
      ToldNext(run[n - 1], run[n], steps[n - 1], w);
      if steps[k] != StopPolling(w) {
        k := ToldByStep(run, steps, n - 1, w);
      }
    }
  }

  lemma NoneToldYet(s: State, w: nat)
    requires Start(s)
    ensures !Told(s, w)
  {
  }

  /** Step `k` is the first at which a worker sees `stopping()` hold. */
  predicate FirstStop(steps: seq<Step>, k: nat) {
    k < |steps| && steps[k].StopPolling? && forall j :: 0 <= j < k ==> !steps[j].StopPolling?
  }

  lemma FirstStopBefore(steps: seq<Step>, k: nat) returns (i: nat)
    requires k < |steps| && steps[k].StopPolling?
    ensures i <= k && FirstStop(steps, i)
  {
    i := 0;
    while !steps[i].StopPolling?
      invariant i <= k && forall j :: 0 <= j < i ==> !steps[j].StopPolling?
      decreases k - i
    {
      i := i + 1;
    }
  }

  /** If no worker has a task in hand when `stopping()` is first seen to hold, and nothing is submitted from
      outside after that, then no work is outstanding once a worker has exited. */
  lemma WorkersLeaveSettled(run: seq<State>, steps: seq<Step>, n: nat, w: nat)
    requires Behavior(run, steps) && n <= |steps| < |run| && IsAt(run[n], w, Exited)
    requires forall k: nat, j: nat :: FirstStop(steps, k) && k <= j < n ==> NothingInHand(run[k]) && !IsOutside(steps[j])
    ensures Settled(run[n])
  {
    var k := ToldByStep(run, steps, n, w);
    var i := FirstStopBefore(steps, k);
    assert FirstStop(steps, i) && i <= k < n;
    BehaviorPath(run, steps);
    PathStep(run, steps, i);
    InvHolds(run, steps, i);
    assert Stopping(run[i]);
    hide Inv, Next, Behavior, Path, Stopping, NothingInHand, Settled, IsOutside, FirstStop;
    ShutdownStable(run, steps, i, n);
    NothingOutstanding(run[n]);
  }

  /** Worker `w`, polling in state `s`, sees `stopping()` hold and goes on to exit. */
  ghost predicate Leaves(s: State, w: nat, run: seq<State>, steps: seq<Step>) {
    && Path(run, steps) && steps != [] && run[0] == s && steps[0] == StopPolling(w)
    && (forall k :: 0 <= k < |steps| ==> !IsOutside(steps[k]))
    && IsAt(run[|steps|], w, Exited)
  }

  /** A worker that sees `stopping()` hold leaves with no work outstanding, however the run goes on without
      outside submissions, exactly when no worker has a task in hand at that moment. */
  lemma ExitSettledIff(s: State, w: nat)
    requires Inv(s) && IsAt(s, w, Polling) && Stopping(s)
    ensures NothingInHand(s) <==> forall run, steps :: Leaves(s, w, run, steps) ==> Settled(run[|steps|])
  {
    if NothingInHand(s) {
      forall run, steps | Leaves(s, w, run, steps)
        ensures Settled(run[|steps|])
      {
        hide Inv, Next, Stopping, NothingInHand, Settled, Path;
        ShutdownStable(run, steps, 0, |steps|);
        NothingOutstanding(run[|steps|]);
      }
    } else {
      var run, steps := LeavesAtOnce(s, w);
    }
  }

  /** The worker goes straight from polling to its exit, and what another has in hand is still there. */
  lemma LeavesAtOnce(s: State, w: nat) returns (run: seq<State>, steps: seq<Step>)
    requires IsAt(s, w, Polling) && Stopping(s) && !NothingInHand(s)
    ensures Leaves(s, w, run, steps) && !Settled(run[|steps|])
  {
    var v: nat :| InHand(s, v);
    var t := s.(workers := s.workers[w := WorkerRec(Scanning, true)]);
    var u := Move(t, w, Exited);
    run, steps := [s, t, u], [StopPolling(w), NoTask(w)];
    assert Next(s, t, StopPolling(w)) && Next(t, u, NoTask(w));
    assert InHand(u, v);
  }

  // ---- A run in which workers leave work behind ---------------------------------------------

  /** Two workers; a callback that yields twice and then waits for an event. */
  const SCENE: seq<Step> := [
    AskStop, OutsideCall(0, None), Take(1, 0), NoTask(0), Begin(1, 0), YieldReady(1),
    StopPolling(0), Requeue(1), Take(0, 0), NoTask(1), Begin(0, 0), YieldReady(0),
    StopPolling(1), Requeue(0), Take(0, 0), Begin(0, 0), AddSelf(0, 0, READ, true), YieldHold(0),
    NoTask(0), NoTask(1)]

  const NO_EVENTS := Table([EMPTY], map[], 0)
  const WATCHING := Table([FdContext({READ}, Some(Fiber(0)), None)], map[0 := {READ}], 1)
  const AGAIN := [Entry(Fiber(0), None)]

  function Two(a: WorkerRec, b: WorkerRec): map<nat, WorkerRec> {
    map[0 := a, 1 := b]
  }

  lemma TwoMoves(a: WorkerRec, b: WorkerRec, c: WorkerRec)
    ensures Two(a, b)[0 := c] == Two(c, b) && Two(a, b)[1 := c] == Two(a, c)
  {
  }

  /** A state after the callback's fiber was made. */
  function With(queue: seq<Entry>, a: WorkerRec, b: WorkerRec, f: FiberRec, table: Table, active: int): State {
    State(queue, Two(a, b), map[0 := f], table, active, map[], true)
  }

  function On(at: Stage): WorkerRec {
    WorkerRec(at, false)
  }

  function Off(at: Stage): WorkerRec {
    WorkerRec(at, true)
  }

  /** The state before step `i` of the scene. */
  function Scene(i: nat): State {
    match i
    case 0 => State([], Two(On(Scanning), On(Scanning)), map[], NO_EVENTS, 0, map[], false)
    case 1 => Scene(0).(stopAsked := true)
    case 2 => Scene(1).(queue := [Entry(Call(0), None)])
    case 3 => Scene(1).(workers := Two(On(Scanning), On(Holding(Call(0)))), active := 1)
    case 4 => Scene(3).(workers := Two(On(Polling), On(Holding(Call(0)))))
    case 5 => With([], On(Polling), On(Running(0)), FiberRec(Free(1), Nowhere), NO_EVENTS, 1)
    case 6 => With([], On(Polling), On(Requeueing(0)), FiberRec(Yielded, Window(1)), NO_EVENTS, 0)
    case 7 => With([], Off(Scanning), On(Requeueing(0)), FiberRec(Yielded, Window(1)), NO_EVENTS, 0)
    case 8 => With(AGAIN, Off(Scanning), On(Scanning), FiberRec(Yielded, Queued), NO_EVENTS, 0)
    case 9 => With([], Off(Holding(Fiber(0))), On(Scanning), FiberRec(Yielded, Taken(0)), NO_EVENTS, 1)
    case 10 => With([], Off(Holding(Fiber(0))), On(Polling), FiberRec(Yielded, Taken(0)), NO_EVENTS, 1)
    case 11 => With([], Off(Running(0)), On(Polling), FiberRec(Free(0), Nowhere), NO_EVENTS, 1)
    case 12 => With([], Off(Requeueing(0)), On(Polling), FiberRec(Yielded, Window(0)), NO_EVENTS, 0)
    case 13 => With([], Off(Requeueing(0)), Off(Scanning), FiberRec(Yielded, Window(0)), NO_EVENTS, 0)
    case 14 => With(AGAIN, Off(Scanning), Off(Scanning), FiberRec(Yielded, Queued), NO_EVENTS, 0)
    case 15 => With([], Off(Holding(Fiber(0))), Off(Scanning), FiberRec(Yielded, Taken(0)), NO_EVENTS, 1)
    case 16 => With([], Off(Running(0)), Off(Scanning), FiberRec(Free(0), Nowhere), NO_EVENTS, 1)
    case 17 => With([], Off(Running(0)), Off(Scanning), FiberRec(Armed(0), Slotted), WATCHING, 1)
    case 18 => With([], Off(Scanning), Off(Scanning), FiberRec(Parked, Slotted), WATCHING, 0)
    case 19 => With([], Off(Exited), Off(Scanning), FiberRec(Parked, Slotted), WATCHING, 0)
    case _ => With([], Off(Exited), Off(Exited), FiberRec(Parked, Slotted), WATCHING, 0)
  }

  lemma SceneStarts(i: nat)
    requires i < 3
    ensures Next(Scene(i), Scene(i + 1), SCENE[i])
  {
    assert Scene(2).queue[..0] + Scene(2).queue[1..] == [];
    TwoMoves(On(Scanning), On(Scanning), On(Holding(Call(0))));
  }

  lemma SceneYields(i: nat)
    requires 3 <= i < 6
    ensures Next(Scene(i), Scene(i + 1), SCENE[i])
  {
    TwoMoves(On(Scanning), On(Holding(Call(0))), On(Polling));
    TwoMoves(On(Polling), On(Holding(Call(0))), On(Running(0)));
    TwoMoves(On(Polling), On(Running(0)), On(Requeueing(0)));
  }

  lemma SceneStops(i: nat)
    requires i == 6 || i == 12
    ensures Next(Scene(i), Scene(i + 1), SCENE[i])
  {
    TwoMoves(On(Polling), On(Requeueing(0)), Off(Scanning));
    TwoMoves(Off(Requeueing(0)), On(Polling), Off(Scanning));
  }

  lemma SceneQueues(i: nat)
    requires i == 7 || i == 13
    ensures Next(Scene(i), Scene(i + 1), SCENE[i])
  {
    assert [] + AGAIN == AGAIN;
    TwoMoves(Off(Scanning), On(Requeueing(0)), On(Scanning));
    TwoMoves(Off(Requeueing(0)), Off(Scanning), Off(Scanning));
  }

  lemma SceneTakes(i: nat)
    requires i == 8 || i == 14
    ensures Next(Scene(i), Scene(i + 1), SCENE[i])
  {
    var b := if i == 8 then On(Scanning) else Off(Scanning);
    TakesAgain(b);
  }

  lemma TakesAgain(b: WorkerRec)
    ensures Next(With(AGAIN, Off(Scanning), b, FiberRec(Yielded, Queued), NO_EVENTS, 0),
                 With([], Off(Holding(Fiber(0))), b, FiberRec(Yielded, Taken(0)), NO_EVENTS, 1), Take(0, 0))
  {
    assert AGAIN[..0] + AGAIN[1..] == [];
    TwoMoves(Off(Scanning), b, Off(Holding(Fiber(0))));
  }

  lemma SceneRunsOn(i: nat)
    requires 9 <= i < 12 || i == 15
    ensures Next(Scene(i), Scene(i + 1), SCENE[i])
  {
    TwoMoves(Off(Holding(Fiber(0))), On(Scanning), On(Polling));
    TwoMoves(Off(Holding(Fiber(0))), On(Polling), Off(Running(0)));
    TwoMoves(Off(Running(0)), On(Polling), Off(Requeueing(0)));
    TwoMoves(Off(Holding(Fiber(0))), Off(Scanning), Off(Running(0)));
  }

  lemma Registers0()
    ensures Add(NO_EVENTS, 0, READ, Fiber(0), true) == WATCHING
  {
    var t := Add(NO_EVENTS, 0, READ, Fiber(0), true);
    assert NO_EVENTS.contexts[0] == EMPTY;
    assert {} + {READ} == {READ};
    assert t.contexts[0] == WATCHING.contexts[0];
    assert t.contexts == WATCHING.contexts;
    assert t.kernel == WATCHING.kernel;
  }

  lemma SceneEnds(i: nat)
    requires 16 <= i < 20
    ensures Next(Scene(i), Scene(i + 1), SCENE[i])
  {
    Registers0();
    hide Add;
    TwoMoves(Off(Running(0)), Off(Scanning), Off(Scanning));
    TwoMoves(Off(Scanning), Off(Scanning), Off(Exited));
    TwoMoves(Off(Exited), Off(Scanning), Off(Exited));
  }

  lemma SceneRuns() returns (run: seq<State>)
    ensures Behavior(run, SCENE) && |run| == 21
    ensures forall i :: 0 <= i <= 20 ==> run[i] == Scene(i)
  {
    run := seq(21, i requires 0 <= i => Scene(i));
    assert Start(run[0]);
    forall i | 0 <= i < |SCENE|
      ensures Next(run[i], run[i + 1], SCENE[i])
    {
      hide Scene, Next;
      if i < 3 {
        SceneStarts(i);
      } else if i < 6 {
        SceneYields(i);
      } else if i == 6 || i == 12 {
        SceneStops(i);
      } else if i == 7 || i == 13 {
        SceneQueues(i);
      } else if i == 8 || i == 14 {
        SceneTakes(i);
      } else if i < 16 {
        SceneRunsOn(i);
      } else {
        SceneEnds(i);
      }
    }
  }

  /** The window is reachable, and seen: a polling worker finds `stopping()` true and leaves although a fiber
      that has just yielded has yet to run on, and a step later it is false. */
  lemma StoppingCanLapse() returns (run: seq<State>, steps: seq<Step>)
    ensures Behavior(run, steps) && |steps| >= 8 && FirstStop(steps, 6)
    ensures IsAt(run[6], 0, Polling) && IsAt(run[6], 1, Requeueing(0)) && Stopping(run[6]) && !Stopping(run[8])
    ensures !IsOutside(steps[6]) && !IsOutside(steps[7])
  {
    run := SceneRuns();
    steps := SCENE;
  }

  /** Every worker can exit while a fiber waits for an event that no one will report, although nothing was
      submitted from outside after the first task. */
  lemma ExitsWithWork() returns (run: seq<State>, steps: seq<Step>)
    ensures Behavior(run, steps) && |steps| >= 2
    ensures forall k :: 2 <= k < |steps| ==> !IsOutside(steps[k])
    ensures var s := run[|steps|];
            && (forall w :: w in s.workers ==> s.workers[w].at == Exited)
            && s.table.pending == 1 && Has(s.table, 0, READ)
            && 0 in s.fibers && s.fibers[0] == FiberRec(Parked, Slotted) && !Settled(s)
  {
    run := SceneRuns();
    steps := SCENE;
    assert run[20] == Scene(20);
    assert run[20].table.pending == 1;
  }
}
