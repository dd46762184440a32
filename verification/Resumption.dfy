/** A fiber that is parked on an event can always be resumed, as long as a worker is left. */
module Resumption {
  import opened Options
  import opened EventTable
  import opened Reactor
  import opened Dispatching
  import opened Shutdown

  /** Steps of worker `w` lead from `s` through `run`. */
  ghost predicate Works(s: State, w: nat, run: seq<State>, steps: seq<Step>) {
    && Path(run, steps) && run[0] == s && forall i :: 0 <= i < |steps| ==> OfWorker(steps[i], w)
  }

  predicate OfWorker(step: Step, w: nat) {
    (step.Take? || step.NoTask? || step.Begin? || step.YieldHold? || step.Finish? || step.Requeue? || step.SubmitSwept?
     || step.ReportFd? || step.LeavePolling?) && step.w == w
  }

  lemma WorksJoin(s: State, w: nat, run: seq<State>, steps: seq<Step>, run2: seq<State>, steps2: seq<Step>)
      returns (all: seq<State>, taken: seq<Step>)
    requires Works(s, w, run, steps) && Works(run[|steps|], w, run2, steps2)
    ensures Works(s, w, all, taken) && taken == steps + steps2 && all[|taken|] == run2[|steps2|]
    ensures steps2 != [] ==> all[|taken| - 1] == run2[|steps2| - 1]
  {
    hide Next, OfWorker;
    all, taken := run + run2[1..], steps + steps2;
    forall i | 0 <= i < |taken|
      ensures Next(all[i], all[i + 1], taken[i]) && OfWorker(taken[i], w)
    {
      if i >= |steps| {
        assert Next(run2[i - |steps|], run2[i - |steps| + 1], steps2[i - |steps|]);
      }
    }
  }

  lemma WorksOne(s: State, w: nat, t: State, step: Step)
    requires Next(s, t, step) && OfWorker(step, w)
    ensures Works(s, w, [s, t], [step])
  {
    hide Next;
  }

  /** The worker is in the loop and has not seen `stopping()` hold. */
  predicate Left(s: State, w: nat) {
    w in s.workers && !s.workers[w].idleDone && !s.workers[w].at.Exited?
  }

  /** Fiber `f` is parked, and waits for an event or in the queue. */
  predicate Waits(s: State, f: nat, p: Place) {
    f in s.fibers && s.fibers[f] == FiberRec(Parked, p) && (p == Slotted || p == Queued)
  }

  lemma FreshNat(used: set<nat>) returns (g: nat)
    ensures forall x :: x in used ==> x < g
    decreases |used|
  {
    if used == {} {
      g := 0;
    } else {
      var x :| x in used;
      var b := FreshNat(used - {x});
      g := if b > x then b else x + 1;
      assert used == (used - {x}) + {x};
    }
  }

  // ---- Back to the scan ---------------------------------------------------------------------

  /** One step of worker `w` towards the scan: every stage leads on. */
  function Distance(at: Stage): nat {
    match at
    case Scanning => 0
    case Running(_) => 1
    case Requeueing(_) => 1
    case Polling => 1
    case Holding(_) => 2
    case Swept(_) => 2
    case Exited => 0
  }

  lemma StepBack(s: State, w: nat, f: nat, p: Place) returns (t: State, step: Step)
    requires Inv(s) && Left(s, w) && s.workers[w].at != Scanning && Waits(s, f, p)
    ensures Next(s, t, step) && OfWorker(step, w) && Left(t, w) && Waits(t, f, p)
    ensures Distance(t.workers[w].at) < Distance(s.workers[w].at)
    ensures s.workers[w].at.Holding? || s.workers[w].at.Running? ==>
              t.queue == s.queue && (t.workers[w].at.Running? || t.workers[w].at == Scanning)
  {
    hide Inv, Next, Waits, Entries, Calls, Enqueue;
    match s.workers[w].at
    case Running(g) => t, step := EndsRun(s, w, f, p);
    case Holding(task) => t, step := BeginsTask(s, w, f, p);
    case Requeueing(g) => t, step := Requeues(s, w, f, p);
    case Swept(cbs) =>
      step := SubmitSwept(w);
      t := Move(s.(queue := s.queue + Entries(Calls(cbs))), w, Polling);
      PollingSteps(s, w, f, p);
    case Polling =>
      step := LeavePolling(w);
      t := Move(s, w, Scanning);
      PollingSteps(s, w, f, p);
  }

  lemma PollingSteps(s: State, w: nat, f: nat, p: Place)
    requires Left(s, w)
    ensures s.workers[w].at.Swept? ==>
              var t := Move(s.(queue := s.queue + Entries(Calls(s.workers[w].at.cbs))), w, Polling);
              Next(s, t, SubmitSwept(w)) && (Waits(s, f, p) ==> Waits(t, f, p))
    ensures s.workers[w].at.Polling? ==>
              Next(s, Move(s, w, Scanning), LeavePolling(w)) && (Waits(s, f, p) ==> Waits(Move(s, w, Scanning), f, p))
  {
  }

  /** A fiber that runs can end, or park if it has registered itself. */
  lemma EndsRun(s: State, w: nat, f: nat, p: Place) returns (t: State, step: Step)
    requires Inv(s) && Left(s, w) && s.workers[w].at.Running? && Waits(s, f, p)
    ensures Next(s, t, step) && OfWorker(step, w) && Left(t, w) && Waits(t, f, p)
    ensures t.queue == s.queue && t.workers[w].at == Scanning
  {
    var g := s.workers[w].at.f;
    assert Consistent(s, g);
    hide Inv, Waiting, Queueing;
    if s.fibers[g].mode.Armed? {
      step := YieldHold(w);
      t := SetFiber(Move(s, w, Scanning), g, Parked, s.fibers[g].place).(active := s.active - 1);
    } else {
      step := Finish(w);
      t := SetFiber(Move(s, w, Scanning), g, Done, Nowhere).(active := s.active - 1);
    }
  }

  lemma Requeues(s: State, w: nat, f: nat, p: Place) returns (t: State, step: Step)
    requires Inv(s) && Left(s, w) && s.workers[w].at.Requeueing? && Waits(s, f, p)
    ensures Next(s, t, step) && OfWorker(step, w) && Left(t, w) && Waits(t, f, p) && t.workers[w].at == Scanning
  {
    assert Tracked(s, f);
    hide Inv, Waiting, Queueing;
    var g := s.workers[w].at.f;
    step := Requeue(w);
    t := Enqueue(Move(s, w, Scanning), Entry(Fiber(g), None));
  }

  /** A worker that has taken an entry begins it. */
  lemma BeginsTask(s: State, w: nat, f: nat, p: Place) returns (t: State, step: Step)
    requires Inv(s) && Left(s, w) && s.workers[w].at.Holding? && Waits(s, f, p)
    ensures Next(s, t, step) && step.Begin? && step.w == w && Left(t, w) && Waits(t, f, p) && t.queue == s.queue
    ensures t.workers[w].at.Running? || t.workers[w].at == Scanning
  {
    assert Tracked(s, f);
    match s.workers[w].at.task
    case Fiber(g) =>
      assert Tracked(s, g) && Consistent(s, g);
      hide Inv, Waiting, Queueing;
      step := Begin(w, 0);
      t := SetFiber(Move(s, w, Running(g)), g, Free(w), Nowhere);
    case Call(c) =>
      var g := FreshNat(s.fibers.Keys);
      hide Inv, Tracked;
      step := Begin(w, g);
      t := SetFiber(Move(s, w, Running(g)), g, Free(w), Nowhere);
  }

  lemma {:induction false} ToScan(s: State, w: nat, f: nat, p: Place) returns (run: seq<State>, steps: seq<Step>)
    requires Inv(s) && Left(s, w) && Waits(s, f, p)
    ensures Works(s, w, run, steps)
    ensures var t := run[|steps|];
            && Inv(t) && Left(t, w) && Waits(t, f, p) && IsAt(t, w, Scanning)
            && (s.workers[w].at.Holding? || s.workers[w].at.Running? || s.workers[w].at.Scanning? ==> t.queue == s.queue)
    decreases Distance(s.workers[w].at)
  {
    hide Inv, Next, Waits;
    if s.workers[w].at == Scanning {
      run, steps := [s], [];
    } else {
      var t, step := StepBack(s, w, f, p);
      InvNext(s, t, step);
      WorksOne(s, w, t, step);
      var run2, steps2 := ToScan(t, w, f, p);
      run, steps := WorksJoin(s, w, [s, t], [step], run2, steps2);
    }
  }

  // ---- Serving the queue --------------------------------------------------------------------

  lemma FirstEligible(s: State, w: nat, n: nat) returns (i: nat)
    requires n <= |s.queue|
    ensures i <= n && NoneEligible(s, w, i) && (i < n ==> Eligible(s, w, s.queue[i]))
  {
    i := 0;
    while i < n && !Eligible(s, w, s.queue[i])
      invariant i <= n && NoneEligible(s, w, i)
    {
      i := i + 1;
    }
  }

  lemma Takes(s: State, w: nat, i: nat, f: nat, p: Place) returns (t: State)
    requires Inv(s) && Left(s, w) && IsAt(s, w, Scanning) && Waits(s, f, p)
    requires i < |s.queue| && NoneEligible(s, w, i) && Eligible(s, w, s.queue[i])
    ensures Next(s, t, Take(w, i)) && Left(t, w) && IsAt(t, w, Holding(s.queue[i].task))
    ensures t.queue == s.queue[..i] + s.queue[i + 1..] && (s.queue[i].task != Fiber(f) ==> Waits(t, f, p))
    ensures s.queue[i].task == Fiber(f) ==> f in t.fibers && t.fibers[f].mode == Parked
  {
    var e := s.queue[i];
    hide Inv, Eligible, NoneEligible;
    t := Relocate(Move(s, w, Holding(e.task)), e.task, Taken(w));
    t := t.(queue := s.queue[..i] + s.queue[i + 1..], active := s.active + 1);
  }

  /** Worker `w` takes an entry, sees it through, and is back at the scan. */
  lemma Serves(s: State, w: nat, i: nat, f: nat, p: Place) returns (run: seq<State>, steps: seq<Step>)
    requires Inv(s) && Left(s, w) && IsAt(s, w, Scanning) && Waits(s, f, p)
    requires i < |s.queue| && NoneEligible(s, w, i) && Eligible(s, w, s.queue[i]) && s.queue[i].task != Fiber(f)
    ensures Works(s, w, run, steps)
    ensures var t := run[|steps|];
            && Inv(t) && Left(t, w) && IsAt(t, w, Scanning) && Waits(t, f, p)
            && t.queue == s.queue[..i] + s.queue[i + 1..]
  {
    hide Inv, Next, Waits, Eligible, NoneEligible;
    var t := Takes(s, w, i, f, p);
    InvNext(s, t, Take(w, i));
    WorksOne(s, w, t, Take(w, i));
    var run2, steps2 := ToScan(t, w, f, p);
    run, steps := WorksJoin(s, w, [s, t], [Take(w, i)], run2, steps2);
  }

  /** It can go on until nothing is left that it may take. */
  lemma {:induction false} ServesAll(s: State, w: nat, f: nat) returns (run: seq<State>, steps: seq<Step>)
    requires Inv(s) && Left(s, w) && IsAt(s, w, Scanning) && Waits(s, f, Slotted)
    ensures Works(s, w, run, steps)
    ensures var t := run[|steps|];
            Inv(t) && Left(t, w) && IsAt(t, w, Scanning) && Waits(t, f, Slotted) && NoneEligible(t, w, |t.queue|)
    decreases |s.queue|
  {
    hide Inv, Next, Waits, Eligible, NoneEligible;
    var i := FirstEligible(s, w, |s.queue|);
    if i == |s.queue| {
      run, steps := [s], [];
    } else {
      NotInQueue(s, f, i);
      run, steps := Serves(s, w, i, f, Slotted);
      var run2, steps2 := ServesAll(run[|steps|], w, f);
      run, steps := WorksJoin(s, w, run, steps, run2, steps2);
    }
  }

  /** A fiber that waits for an event is not in the queue. */
  lemma NotInQueue(s: State, f: nat, i: nat)
    requires Inv(s) && Waits(s, f, Slotted) && i < |s.queue|
    ensures s.queue[i].task != Fiber(f)
  {
    assert Tracked(s, f);
    QueueingRemove(s.queue, i, Fiber(f));
  }

  /** A parked fiber that is in the queue, for any worker, is reached and swapped in. */
  lemma {:induction false} Reaches(s: State, w: nat, f: nat, j: nat) returns (run: seq<State>, steps: seq<Step>)
    requires Inv(s) && Left(s, w) && IsAt(s, w, Scanning) && Waits(s, f, Queued)
    requires j < |s.queue| && s.queue[j] == Entry(Fiber(f), None)
    ensures Works(s, w, run, steps) && steps != []
    ensures Resumes(run[|steps| - 1], steps[|steps| - 1], f) == 1
    decreases |s.queue|
  {
    hide Inv, Next, Eligible, NoneEligible;
    ItselfEligible(s, w, f, j);
    var i := FirstEligible(s, w, j + 1);
    NotPast(s, w, i, j);
    if s.queue[i].task == Fiber(f) {
      run, steps := SwapsIn(s, w, i, f);
    } else {
      run, steps := Serves(s, w, i, f, Queued);
      var t := run[|steps|];
      assert i < j && t.queue[j - 1] == s.queue[j];
      var run2, steps2 := Reaches(t, w, f, j - 1);
      run, steps := WorksJoin(s, w, run, steps, run2, steps2);
    }
  }

  lemma ItselfEligible(s: State, w: nat, f: nat, j: nat)
    requires Waits(s, f, Queued) && j < |s.queue| && s.queue[j] == Entry(Fiber(f), None)
    ensures Eligible(s, w, s.queue[j])
  {
  }

  lemma NotPast(s: State, w: nat, i: nat, j: nat)
    requires i <= j + 1 <= |s.queue| && NoneEligible(s, w, i) && Eligible(s, w, s.queue[j])
    ensures i <= j
  {
    hide Eligible;
  }

  lemma SwapsIn(s: State, w: nat, i: nat, f: nat) returns (run: seq<State>, steps: seq<Step>)
    requires Inv(s) && Left(s, w) && IsAt(s, w, Scanning) && Waits(s, f, Queued)
    requires i < |s.queue| && NoneEligible(s, w, i) && Eligible(s, w, s.queue[i]) && s.queue[i].task == Fiber(f)
    ensures Works(s, w, run, steps) && steps != []
    ensures Resumes(run[|steps| - 1], steps[|steps| - 1], f) == 1
  {
    hide Inv, Eligible, NoneEligible;
    var t := Takes(s, w, i, f, Queued);
    var u := SetFiber(Move(t, w, Running(f)), f, Free(w), Nowhere);
    assert Next(t, u, Begin(w, 0));
    hide Next;
    run, steps := [s, t, u], [Take(w, i), Begin(w, 0)];
  }

  // ---- The event happens --------------------------------------------------------------------

  lemma {:induction false} SlotOf(contexts: seq<FdContext>, x: Task) returns (fd: nat)
    requires Waiting(contexts, x) > 0
    ensures fd < |contexts| && (contexts[fd].read == Some(x) || contexts[fd].write == Some(x))
  {
    if contexts[0].read == Some(x) || contexts[0].write == Some(x) {
      fd := 0;
    } else {
      fd := SlotOf(contexts[1..], x);
      fd := fd + 1;
    }
  }

  const FAILURE := Report(false, false, true)

  /** An error on the descriptor resumes whoever waits there. */
  lemma ErrorResumes(t: Table, fd: nat, x: Task)
    requires Book(t) && fd < |t.contexts| && (t.contexts[fd].read == Some(x) || t.contexts[fd].write == Some(x))
    ensures x in Dispatch(t, fd, FAILURE, true).1
  {
    var c := t.contexts[fd];
    assert Filled(c);
    assert Readiness(FAILURE) == {READ, WRITE};
    assert READ in c.events ==> READ in c.events * Readiness(FAILURE);
    assert WRITE in c.events ==> WRITE in c.events * Readiness(FAILURE);
    var (u, first) := if READ in Readiness(FAILURE) then Cancel(t, fd, READ, true) else (t, []);
    assert u.contexts[fd].write == c.write && (WRITE in u.contexts[fd].events <==> WRITE in c.events);
    if c.read == Some(x) {
      assert first == [x];
    } else {
      assert Cancel(u, fd, WRITE, true).1 == [x];
    }
  }

  lemma QueuedAt(queue: seq<Entry>, tasks: seq<Task>, x: Task) returns (j: nat)
    requires x in tasks
    ensures j < |queue + Entries(tasks)| && (queue + Entries(tasks))[j] == Entry(x, None)
  {
    EntriesPlain(tasks, []);
    var i :| 0 <= i < |tasks| && tasks[i] == x;
    j := |queue| + i;
  }

  /** A worker that finds nothing to take goes polling, is told of the event, and goes back to the scan. */
  lemma HearsOf(s: State, w: nat, f: nat, fd: nat) returns (run: seq<State>, steps: seq<Step>, j: nat)
    requires Inv(s) && Left(s, w) && IsAt(s, w, Scanning) && Waits(s, f, Slotted) && NoneEligible(s, w, |s.queue|)
    requires fd < |s.table.contexts|
    requires s.table.contexts[fd].read == Some(Fiber(f)) || s.table.contexts[fd].write == Some(Fiber(f))
    ensures Works(s, w, run, steps)
    ensures var t := run[|steps|];
            && Inv(t) && Left(t, w) && IsAt(t, w, Scanning) && Waits(t, f, Queued)
            && j < |t.queue| && t.queue[j] == Entry(Fiber(f), None)
  {
    assert Book(s.table);
    ErrorResumes(s.table, fd, Fiber(f));
    hide Inv, Book, Next, Dispatch, NoneEligible, Entries, HandOver, Waits, Works, Move, OfWorker, IsAt;
    var r := Dispatch(s.table, fd, FAILURE, true);
    var t := Move(s, w, Polling);
    var u := HandOver(t, r);
    var v := Move(u, w, Scanning);
    steps := [NoTask(w), ReportFd(w, fd, FAILURE, true), LeavePolling(w)];
    run := [s, t, u, v];
    PollsOnce(s, w, fd, f);
    j := QueuedAt(s.queue, r.1, Fiber(f));
    ThreeSteps(s, t, u, v, w, fd);
  }

  lemma ThreeSteps(s: State, t: State, u: State, v: State, w: nat, fd: nat)
    requires Inv(s) && Next(s, t, NoTask(w)) && Next(t, u, ReportFd(w, fd, FAILURE, true)) && Next(u, v, LeavePolling(w))
    ensures Inv(v) && Works(s, w, [s, t, u, v], [NoTask(w), ReportFd(w, fd, FAILURE, true), LeavePolling(w)])
  {
    hide Inv, Next;
    InvNext(s, t, NoTask(w));
    InvNext(t, u, ReportFd(w, fd, FAILURE, true));
    InvNext(u, v, LeavePolling(w));
  }

  lemma PollsOnce(s: State, w: nat, fd: nat, f: nat)
    requires Left(s, w) && IsAt(s, w, Scanning) && Waits(s, f, Slotted) && NoneEligible(s, w, |s.queue|)
    requires Fiber(f) in Dispatch(s.table, fd, FAILURE, true).1
    ensures var r := Dispatch(s.table, fd, FAILURE, true);
            var t := Move(s, w, Polling);
            var u := HandOver(t, r);
            var v := Move(u, w, Scanning);
            && Next(s, t, NoTask(w)) && Next(t, u, ReportFd(w, fd, FAILURE, true)) && Next(u, v, LeavePolling(w))
            && v.queue == s.queue + Entries(r.1) && Waits(v, f, Queued) && Left(v, w) && IsAt(v, w, Scanning)
  {
    hide Dispatch, NoneEligible, Entries;
  }

  /** From every reachable state in which some worker has not been told to stop, a fiber that is parked on an event
      can be resumed by steps of that worker: no parked fiber is lost while its registration stands. */
  lemma ParkedCanResume(s: State, w: nat, f: nat) returns (run: seq<State>, steps: seq<Step>)
    requires Inv(s) && Left(s, w) && Waits(s, f, Slotted)
    ensures Works(s, w, run, steps) && steps != []
    ensures Resumes(run[|steps| - 1], steps[|steps| - 1], f) == 1
  {
    hide Inv, Next, Resumes, NoneEligible, OfWorker;
    run, steps := ToScan(s, w, f, Slotted);
    var run2, steps2 := ServesAll(run[|steps|], w, f);
    run, steps := WorksJoin(s, w, run, steps, run2, steps2);
    var t := run[|steps|];
    var fd := WaitsAt(t, f);
    var run3, steps3, j := HearsOf(t, w, f, fd);
    run, steps := WorksJoin(s, w, run, steps, run3, steps3);
    var run4, steps4 := Reaches(run[|steps|], w, f, j);
    run, steps := WorksJoin(s, w, run, steps, run4, steps4);
  }

  lemma WaitsAt(s: State, f: nat) returns (fd: nat)
    requires Inv(s) && Waits(s, f, Slotted)
    ensures fd < |s.table.contexts|
    ensures s.table.contexts[fd].read == Some(Fiber(f)) || s.table.contexts[fd].write == Some(Fiber(f))
  {
    assert Tracked(s, f);
    fd := SlotOf(s.table.contexts, Fiber(f));
  }

  // ---- What can be done at any time ---------------------------------------------------------

  /** What a running fiber, any other thread, or a polling worker is free to do. */
  predicate MayAct(s: State, step: Step) {
    match step
    case SubmitCall(w, _, _) => RunsFree(s, w)
    case SubmitFiber(w, g, _) => RunsFree(s, w) && g !in s.fibers
    case AddCall(w, fd, ev, _, _) => RunsFree(s, w) && |s.table.contexts| > 0 && !Has(s.table, fd, ev)
    case DelOne(w, _, _, _) => RunsFree(s, w)
    case CancelOne(w, _, _, _) => RunsFree(s, w)
    case CancelFd(w, _, _) => RunsFree(s, w)
    case ArmTimer(w, _, _) => RunsFree(s, w)
    case DisarmTimer(w, _) => RunsFree(s, w)
    case SweepTimers(w, due, gone) =>
      IsAt(s, w, Polling) && (forall i :: 0 <= i < |due| ==> due[i] in s.timers) && forall id :: id in gone ==> id in due
    case OutsideCall(_, _) => true
    case OutsideFiber(g, _) => g !in s.fibers
    case OutsideAdd(fd, ev, _, _) => |s.table.contexts| > 0 && !Has(s.table, fd, ev)
    case OutsideDel(_, _, _) => true
    case OutsideCancel(_, _, _) => true
    case OutsideCancelFd(_, _) => true
    case OutsideTimer(_, _) => true
    case AskStop => true
    case _ => false
  }

  lemma CanAlways(s: State, step: Step) returns (t: State)
    requires MayAct(s, step)
    ensures Next(s, t, step)
  {
    hide Has, Cancel, CancelAll, Add, HandOver, Discard, Enqueue, Callbacks, RunsFree;
    match step
    case SubmitCall(_, c, pin) => t := Enqueue(s, Entry(Call(c), pin));
    case OutsideCall(c, pin) => t := Enqueue(s, Entry(Call(c), pin));
    case SubmitFiber(_, g, pin) => t := Enqueue(SetFiber(s, g, Fresh, Nowhere), Entry(Fiber(g), pin));
    case OutsideFiber(g, pin) => t := Enqueue(SetFiber(s, g, Fresh, Nowhere), Entry(Fiber(g), pin));
    case AddCall(_, fd, ev, c, ok) => t := s.(table := Add(s.table, fd, ev, Call(c), ok));
    case OutsideAdd(fd, ev, c, ok) => t := s.(table := Add(s.table, fd, ev, Call(c), ok));
    case DelOne(_, fd, ev, ok) => t := Discard(s, fd, ev, ok);
    case OutsideDel(fd, ev, ok) => t := Discard(s, fd, ev, ok);
    case CancelOne(_, fd, ev, ok) => t := HandOver(s, Cancel(s.table, fd, ev, ok));
    case OutsideCancel(fd, ev, ok) => t := HandOver(s, Cancel(s.table, fd, ev, ok));
    case CancelFd(_, fd, ok) => t := HandOver(s, CancelAll(s.table, fd, ok));
    case OutsideCancelFd(fd, ok) => t := HandOver(s, CancelAll(s.table, fd, ok));
    case ArmTimer(_, id, c) => t := s.(timers := s.timers[id := c]);
    case OutsideTimer(id, c) => t := s.(timers := s.timers[id := c]);
    case DisarmTimer(_, id) => t := s.(timers := s.timers - {id});
    case SweepTimers(w, due, gone) => t := Move(s, w, Swept(Callbacks(s.timers, due))).(timers := s.timers - gone);
    case AskStop => t := s.(stopAsked := true);
  }

  /** Timers are armed and disarmed by these steps alone, and shutdown is called for by one. */
  lemma TimersFollow(s: State, t: State, step: Step)
    requires Next(s, t, step)
    ensures t.timers == match step
                        case ArmTimer(_, id, c) => s.timers[id := c]
                        case OutsideTimer(id, c) => s.timers[id := c]
                        case DisarmTimer(_, id) => s.timers - {id}
                        case SweepTimers(_, _, gone) => s.timers - gone
                        case _ => s.timers
    ensures t.stopAsked == (s.stopAsked || step.AskStop?)
  {
    hide Eligible, NoneEligible, Stopping, Entries, Calls, Callbacks, Add, Del, Cancel, CancelAll, Dispatch, Has;
  }
}
