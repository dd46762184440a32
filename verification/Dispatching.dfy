/** What every run of the reactor guarantees: a waiting fiber is resumed exactly once per registration,
    and entries are taken exactly once and only by the thread they are pinned to. */
module Dispatching {
  import opened Options
  import opened EventTable
  import opened Reactor

  // ---- Resumed exactly once -----------------------------------------------------------------

  /** Workers that are about to resume `f`, or to queue it again. */
  ghost function Holders(workers: map<nat, WorkerRec>, f: nat): set<nat> {
    set w | w in workers && (workers[w].at == Holding(Fiber(f)) || workers[w].at == Requeueing(f))
  }

  /** In how many places something will resume `f`: slots, queue entries, workers. */
  ghost function Handles(s: State, f: nat): nat {
    Waiting(s.table.contexts, Fiber(f)) + Queueing(s.queue, Fiber(f)) + |Holders(s.workers, f)|
  }

  /** The fiber must be resumed to go on, or will be parked until it is. */
  predicate Awaits(m: Mode) {
    m.Fresh? || m.Armed? || m.Parked? || m.Yielded?
  }

  /** Something will resume the fiber. */
  function Pending(s: State, f: nat): nat {
    if f in s.fibers && Awaits(s.fibers[f].mode) && s.fibers[f].place != Dropped then 1 else 0
  }

  /** A fiber that waits, and was not dropped, is in exactly one slot, queue entry or worker's hand; a running
      or finished one is in none. */
  lemma HandlesOfState(s: State, f: nat)
    requires Tracked(s, f) && Consistent(s, f)
    ensures Handles(s, f) == Pending(s, f)
  {
    hide Waiting, Queueing;
    var held := Holders(s.workers, f);
    match PlaceOf(s, f)
    case Taken(w) => assert held == {w};
    case Window(w) => assert held == {w};
    case _ => assert held == {};
  }

  /** What a step does for fiber `f`: submits it when it is new, registers it for an event, or lets it yield. */
  function Grants(s: State, step: Step, f: nat): nat {
    match step
    case SubmitFiber(_, g, _) => if g == f then 1 else 0
    case OutsideFiber(g, _) => if g == f then 1 else 0
    case AddSelf(w, _, _, ok) => if ok && IsAt(s, w, Running(f)) then 1 else 0
    case YieldReady(w) => if IsAt(s, w, Running(f)) then 1 else 0
    case _ => 0
  }

  /** The step swaps `f` in. */
  function Resumes(s: State, step: Step, f: nat): nat {
    if step.Begin? && IsAt(s, step.w, Holding(Fiber(f))) && f in s.fibers && s.fibers[f].mode != Done then 1 else 0
  }

  /** The step is a `delEvent` that takes the registration of `f` out of its slot. */
  function Drops(s: State, step: Step, f: nat): nat {
    if (step.DelOne? || step.OutsideDel?) && Fiber(f) in Cancel(s.table, step.fd, step.ev, step.ok).1 then 1 else 0
  }

  lemma PendingNext(s: State, t: State, step: Step, f: nat)
    requires Inv(s) && Next(s, t, step)
    ensures Pending(t, f) + Resumes(s, step, f) + Drops(s, step, f) == Pending(s, f) + Grants(s, step, f)
  {
    assert Book(s.table) && Tracked(s, f) && Consistent(s, f);
    hide Inv, Book, Tracked, Consistent, Busy;
    if Registers(step) {
      PendingAdd(s, t, step, f);
    } else if OnTable(step) {
      PendingTable(s, t, step, f);
    } else if Submits(step) {
      PendingSubmit(s, t, step, f);
    } else {
      PendingWorker(s, t, step, f);
    }
  }

  lemma PendingTable(s: State, t: State, step: Step, f: nat)
    requires Book(s.table) && Tracked(s, f) && Consistent(s, f)
    requires Next(s, t, step) && OnTable(step) && !Registers(step)
    ensures Pending(t, f) + Resumes(s, step, f) + Drops(s, step, f) == Pending(s, f) + Grants(s, step, f)
  {
    hide Tracked, Consistent, Waiting, Count, Cancel, CancelAll, Dispatch, Book, HandOver, Discard, Pending, RunsFree;
    var x := Fiber(f);
    match step
    case CancelOne(w, fd, ev, ok) =>
      CancelSchedules(s.table, fd, ev, ok, x);
      PendingHandOver(s, Cancel(s.table, fd, ev, ok), f);
    case OutsideCancel(fd, ev, ok) =>
      CancelSchedules(s.table, fd, ev, ok, x);
      PendingHandOver(s, Cancel(s.table, fd, ev, ok), f);
    case DelOne(w, fd, ev, ok) => PendingDiscard(s, fd, ev, ok, f);
    case OutsideDel(fd, ev, ok) => PendingDiscard(s, fd, ev, ok, f);
    case CancelFd(w, fd, ok) =>
      CancelAllSchedules(s.table, fd, ok, x);
      PendingHandOver(s, CancelAll(s.table, fd, ok), f);
    case OutsideCancelFd(fd, ok) =>
      CancelAllSchedules(s.table, fd, ok, x);
      PendingHandOver(s, CancelAll(s.table, fd, ok), f);
    case ReportFd(w, fd, report, ok) =>
      DispatchSchedules(s.table, fd, report, ok, x);
      PendingHandOver(s, Dispatch(s.table, fd, report, ok), f);
    case _ =>
  }

  lemma PendingAdd(s: State, t: State, step: Step, f: nat)
    requires Tracked(s, f) && Consistent(s, f) && Next(s, t, step) && Registers(step)
    ensures Pending(t, f) + Resumes(s, step, f) + Drops(s, step, f) == Pending(s, f) + Grants(s, step, f)
  {
    hide Waiting, Queueing, Add, Cancel, Has;
  }

  lemma PendingHandOver(s: State, r: (Table, seq<Task>), f: nat)
    requires Tracked(s, f) && Consistent(s, f)
    requires Waiting(r.0.contexts, Fiber(f)) + Count(r.1, Fiber(f)) == Waiting(s.table.contexts, Fiber(f))
    ensures Pending(HandOver(s, r), f) == Pending(s, f)
  {
    LeavesSlot(s, r, f);
    hide Tracked, Consistent, Waiting, Count;
  }

  lemma PendingDiscard(s: State, fd: nat, ev: Event, ok: bool, f: nat)
    requires Book(s.table) && Tracked(s, f) && Consistent(s, f)
    ensures Pending(Discard(s, fd, ev, ok), f) + (if Fiber(f) in Cancel(s.table, fd, ev, ok).1 then 1 else 0)
            == Pending(s, f)
  {
    hide Tracked, Consistent, Waiting, Count, Book, Cancel;
    CancelSchedules(s.table, fd, ev, ok, Fiber(f));
    LeavesSlot(s, Cancel(s.table, fd, ev, ok), f);
  }

  /** A continuation that is handed over or dropped was in a slot, and its fiber waits. */
  lemma LeavesSlot(s: State, r: (Table, seq<Task>), f: nat)
    requires Tracked(s, f) && Consistent(s, f)
    requires Waiting(r.0.contexts, Fiber(f)) + Count(r.1, Fiber(f)) == Waiting(s.table.contexts, Fiber(f))
    ensures Fiber(f) in r.1 ==> f in s.fibers && s.fibers[f].place == Slotted && Awaits(s.fibers[f].mode)
  {
    CountIn(r.1, Fiber(f));
    hide Count, Waiting, Queueing;
  }

  lemma PendingSubmit(s: State, t: State, step: Step, f: nat)
    requires Tracked(s, f) && Consistent(s, f) && Next(s, t, step) && Submits(step)
    ensures Pending(t, f) + Resumes(s, step, f) + Drops(s, step, f) == Pending(s, f) + Grants(s, step, f)
  {
    hide Next, Tracked, Consistent, Cancel;
    SubmitFibers(s, t, step, f);
  }

  /** The step submits `f`, a new fiber. */
  predicate SubmitsNew(step: Step, f: nat) {
    (step.SubmitFiber? || step.OutsideFiber?) && step.g == f
  }

  /** A submission makes one fiber at most, and leaves the others as they are. */
  lemma SubmitFibers(s: State, t: State, step: Step, f: nat)
    requires Next(s, t, step) && Submits(step)
    ensures SubmitsNew(step, f) ==> f !in s.fibers && f in t.fibers && t.fibers[f] == FiberRec(Fresh, Queued)
    ensures !SubmitsNew(step, f) ==> (f in t.fibers <==> f in s.fibers)
    ensures !SubmitsNew(step, f) && f in s.fibers ==> t.fibers[f] == s.fibers[f]
  {
    hide RunsFree;
  }

  lemma PendingWorker(s: State, t: State, step: Step, f: nat)
    requires Tracked(s, f) && Consistent(s, f) && Next(s, t, step) && !OnTable(step) && !Submits(step)
    ensures Pending(t, f) + Resumes(s, step, f) + Drops(s, step, f) == Pending(s, f) + Grants(s, step, f)
  {
    hide Waiting, Queueing, Cancel, Stopping, NoneEligible, Callbacks, Entries, Calls;
    if step.Take? {
      QueueingRemove(s.queue, step.i, Fiber(f));
    }
  }

  // ---- Over a run ---------------------------------------------------------------------------

  ghost function Granted(run: seq<State>, steps: seq<Step>, n: nat, f: nat): nat
    requires n <= |steps| < |run|
  {
    if n == 0 then 0 else Granted(run, steps, n - 1, f) + Grants(run[n - 1], steps[n - 1], f)
  }

  ghost function Resumed(run: seq<State>, steps: seq<Step>, n: nat, f: nat): nat
    requires n <= |steps| < |run|
  {
    if n == 0 then 0 else Resumed(run, steps, n - 1, f) + Resumes(run[n - 1], steps[n - 1], f)
  }

  ghost function DroppedBy(run: seq<State>, steps: seq<Step>, n: nat, f: nat): nat
    requires n <= |steps| < |run|
  {
    if n == 0 then 0 else DroppedBy(run, steps, n - 1, f) + Drops(run[n - 1], steps[n - 1], f)
  }

  /** Over every run, how often a fiber has been resumed, plus one if something is still to resume it, plus
      how often `delEvent` dropped its registration, is how often it was submitted, registered and yielded:
      so each registration resumes it once or is dropped, never both, whichever of readiness, timeout,
      cancellation or close comes first. And what is still to resume it is exactly one slot, queue entry or
      worker's hand, if it waits and was not dropped, and nothing otherwise. */
  lemma {:induction false} ResumedOncePerRegistration(run: seq<State>, steps: seq<Step>, n: nat, f: nat)
    requires Behavior(run, steps) && n <= |steps| < |run|
    ensures Resumed(run, steps, n, f) + DroppedBy(run, steps, n, f) + Handles(run[n], f) == Granted(run, steps, n, f)
    ensures Handles(run[n], f) == Pending(run[n], f)
  {
    hide Next, Behavior, Inv, Handles, Pending, Grants, Resumes, Drops;
    HandlesHere(run, steps, n, f);
    if n == 0 {
      NothingPending(run, steps, f);
    } else {
      ResumedOncePerRegistration(run, steps, n - 1, f);
      InvHolds(run, steps, n - 1);
      StepTaken(run, steps, n - 1);
      HandlesHere(run, steps, n - 1, f);
      PendingNext(run[n - 1], run[n], steps[n - 1], f);
    }
  }

  lemma HandlesHere(run: seq<State>, steps: seq<Step>, n: nat, f: nat)
    requires Behavior(run, steps) && n < |run|
    ensures Handles(run[n], f) == Pending(run[n], f)
  {
    InvHolds(run, steps, n);
    hide Behavior, Tracked, Consistent, Handles, Pending, Book, Busy;
    assert Tracked(run[n], f) && Consistent(run[n], f);
    HandlesOfState(run[n], f);
  }

  lemma NothingPending(run: seq<State>, steps: seq<Step>, f: nat)
    requires Behavior(run, steps)
    ensures Pending(run[0], f) == 0
  {
  }

  /** No fiber that is running or finished is swapped in, and none runs on two workers. */
  lemma SwapsInOnlyWaiting(run: seq<State>, steps: seq<Step>, n: nat, v: nat, w: nat, f: nat)
    requires Behavior(run, steps) && n < |run|
    ensures IsAt(run[n], w, Holding(Fiber(f))) ==>
              f in run[n].fibers && !Executing(run[n], f) && run[n].fibers[f].mode != Done
              && !IsAt(run[n], v, Running(f))
    ensures IsAt(run[n], v, Running(f)) && IsAt(run[n], w, Running(f)) ==> v == w
  {
    InvHolds(run, steps, n);
    hide Behavior, Book, Busy, Waiting, Queueing;
    assert Tracked(run[n], f) && Consistent(run[n], f);
  }

  /** The active count is the number of workers that hold or run what they took. */
  lemma ActiveCounts(run: seq<State>, steps: seq<Step>, n: nat)
    requires Behavior(run, steps) && n < |run|
    ensures run[n].active == |Busy(run[n].workers)|
    ensures Book(run[n].table)
  {
    InvHolds(run, steps, n);
  }

  lemma StepTaken(run: seq<State>, steps: seq<Step>, n: nat)
    requires Behavior(run, steps) && n < |steps|
    ensures |run| == |steps| + 1 && Next(run[n], run[n + 1], steps[n])
  {
    hide Next;
  }

  // ---- Entries are conserved ----------------------------------------------------------------

  /** The entries a step puts into the queue. */
  function Submitted(s: State, step: Step): seq<Entry> {
    match step
    case SubmitCall(_, c, pin) => [Entry(Call(c), pin)]
    case OutsideCall(c, pin) => [Entry(Call(c), pin)]
    case SubmitFiber(_, g, pin) => [Entry(Fiber(g), pin)]
    case OutsideFiber(g, pin) => [Entry(Fiber(g), pin)]
    case CancelOne(_, fd, ev, ok) => Entries(Cancel(s.table, fd, ev, ok).1)
    case OutsideCancel(fd, ev, ok) => Entries(Cancel(s.table, fd, ev, ok).1)
    case CancelFd(_, fd, ok) => Entries(CancelAll(s.table, fd, ok).1)
    case OutsideCancelFd(fd, ok) => Entries(CancelAll(s.table, fd, ok).1)
    case ReportFd(_, fd, report, ok) => Entries(Dispatch(s.table, fd, report, ok).1)
    case Requeue(w) =>
      if w in s.workers && s.workers[w].at.Requeueing? then [Entry(Fiber(s.workers[w].at.f), None)] else []
    case SubmitSwept(w) =>
      if w in s.workers && s.workers[w].at.Swept? then Entries(Calls(s.workers[w].at.cbs)) else []
    case _ => []
  }

  /** The entry a step takes out of it, and the worker that takes it. */
  function Removed(s: State, step: Step): seq<Entry> {
    if step.Take? && step.i < |s.queue| then [s.queue[step.i]] else []
  }

  function Taker(s: State, step: Step): seq<nat> {
    if step.Take? && step.i < |s.queue| then [step.w] else []
  }

  lemma CountRemove(q: seq<Entry>, i: nat, e: Entry)
    requires i < |q|
    ensures Count(q[..i] + q[i + 1..], e) + (if q[i] == e then 1 else 0) == Count(q, e)
  {
    assert q == q[..i] + ([q[i]] + q[i + 1..]);
    CountConcat(q[..i], [q[i]] + q[i + 1..], e);
    CountConcat([q[i]], q[i + 1..], e);
    CountConcat(q[..i], q[i + 1..], e);
    assert [q[i]][1..] == [];
  }

  lemma QueueAppends(s: State, t: State, step: Step)
    requires Next(s, t, step) && !step.Take?
    ensures t.queue == s.queue + Submitted(s, step)
  {
    hide Eligible, NoneEligible, Stopping, Entries, Calls, Callbacks, Add, Del, Cancel, CancelAll, Dispatch, Has;
    if Submitted(s, step) == [] {
      assert s.queue + [] == s.queue;
    }
  }

  lemma QueueNext(s: State, t: State, step: Step, e: Entry)
    requires Next(s, t, step)
    ensures Count(t.queue, e) + Count(Removed(s, step), e) == Count(s.queue, e) + Count(Submitted(s, step), e)
  {
    if step.Take? {
      CountRemove(s.queue, step.i, e);
      assert Removed(s, step)[1..] == [];
    } else {
      QueueAppends(s, t, step);
      CountConcat(s.queue, Submitted(s, step), e);
    }
  }

  /** All that was submitted, and all that was taken, in the first `n` steps. */
  ghost function AllSubmitted(run: seq<State>, steps: seq<Step>, n: nat): seq<Entry>
    requires n <= |steps| < |run|
  {
    if n == 0 then [] else AllSubmitted(run, steps, n - 1) + Submitted(run[n - 1], steps[n - 1])
  }

  ghost function AllTaken(run: seq<State>, steps: seq<Step>, n: nat): seq<Entry>
    requires n <= |steps| < |run|
  {
    if n == 0 then [] else AllTaken(run, steps, n - 1) + Removed(run[n - 1], steps[n - 1])
  }

  ghost function AllTakers(run: seq<State>, steps: seq<Step>, n: nat): seq<nat>
    requires n <= |steps| < |run|
  {
    if n == 0 then [] else AllTakers(run, steps, n - 1) + Taker(run[n - 1], steps[n - 1])
  }

  /** Every submitted entry is in the queue or was taken by exactly one worker. */
  lemma {:induction false} EntriesConserved(run: seq<State>, steps: seq<Step>, n: nat, e: Entry)
    requires Behavior(run, steps) && n <= |steps| < |run|
    ensures Count(AllSubmitted(run, steps, n), e) == Count(run[n].queue, e) + Count(AllTaken(run, steps, n), e)
  {
    hide Next, Behavior, Submitted, Removed, Count;
    if n == 0 {
      NothingYet(run, steps, e);
    } else {
      EntriesConserved(run, steps, n - 1, e);
      StepTaken(run, steps, n - 1);
      QueueNext(run[n - 1], run[n], steps[n - 1], e);
      CountConcat(AllSubmitted(run, steps, n - 1), Submitted(run[n - 1], steps[n - 1]), e);
      CountConcat(AllTaken(run, steps, n - 1), Removed(run[n - 1], steps[n - 1]), e);
    }
  }

  lemma NothingYet(run: seq<State>, steps: seq<Step>, e: Entry)
    requires Behavior(run, steps)
    ensures Count([], e) == Count(run[0].queue, e) == Count([], e) == 0
  {
  }

  /** An entry pinned to a thread is taken by no other. */
  lemma {:induction false} PinsRespected(run: seq<State>, steps: seq<Step>, n: nat, k: nat)
    requires Behavior(run, steps) && n <= |steps| < |run|
    ensures |AllTakers(run, steps, n)| == |AllTaken(run, steps, n)|
    ensures k < |AllTaken(run, steps, n)| ==>
              var pin := AllTaken(run, steps, n)[k].pin; pin == None || pin == Some(AllTakers(run, steps, n)[k])
  {
    hide Next, Behavior, Removed, Taker;
    if n > 0 {
      PinsRespected(run, steps, n - 1, k);
      StepTaken(run, steps, n - 1);
      TakerEligible(run[n - 1], run[n], steps[n - 1]);
    }
  }

  lemma TakerEligible(s: State, t: State, step: Step)
    requires Next(s, t, step)
    ensures |Taker(s, step)| == |Removed(s, step)| <= 1
    ensures |Removed(s, step)| == 1 ==>
              var pin := Removed(s, step)[0].pin; pin == None || pin == Some(Taker(s, step)[0])
  {
  }

  // ---- Timers run ---------------------------------------------------------------------------

  lemma {:induction false} EntriesPlain(tasks: seq<Task>, cbs: seq<nat>)
    ensures |Entries(tasks)| == |tasks| && forall i :: 0 <= i < |tasks| ==> Entries(tasks)[i] == Entry(tasks[i], None)
    ensures |Calls(cbs)| == |cbs| && forall i :: 0 <= i < |cbs| ==> Calls(cbs)[i] == Call(cbs[i])
    decreases |tasks| + |cbs|
  {
    if tasks != [] {
      EntriesPlain(tasks[1..], cbs);
    } else if cbs != [] {
      EntriesPlain([], cbs[1..]);
    }
  }

  lemma {:induction false} CallbacksOf(timers: map<nat, nat>, due: seq<nat>)
    requires forall i :: 0 <= i < |due| ==> due[i] in timers
    ensures forall i :: 0 <= i < |due| ==> Callbacks(timers, due)[i] == timers[due[i]]
  {
    if due != [] {
      CallbacksOf(timers, due[1..]);
    }
  }

  /** A timer goes only when it is disarmed, or when a polling worker takes its callback; and the callbacks a
      worker has taken are submitted in order, unpinned. */
  lemma TimersLeaveToRun(s: State, t: State, step: Step, id: nat)
    requires Next(s, t, step)
    ensures id in s.timers && id !in t.timers ==>
              step.DisarmTimer? || (step.SweepTimers? && id in step.due
                                    && step.w in t.workers && t.workers[step.w].at.Swept?
                                    && s.timers[id] in t.workers[step.w].at.cbs)
    ensures step.SubmitSwept? && step.w in s.workers && s.workers[step.w].at.Swept? ==>
              var cbs := s.workers[step.w].at.cbs;
              t.queue == s.queue + seq(|cbs|, i requires 0 <= i < |cbs| => Entry(Call(cbs[i]), None))
              && IsAt(t, step.w, Polling)
  {
    if step.SweepTimers? {
      CallbacksOf(s.timers, step.due);
      SweptRun(s, t, step, id);
    } else if step.SubmitSwept? {
      var cbs := s.workers[step.w].at.cbs;
      EntriesPlain([], cbs);
      EntriesPlain(Calls(cbs), []);
      hide Entries, Calls;
      assert Entries(Calls(cbs)) == seq(|cbs|, i requires 0 <= i < |cbs| => Entry(Call(cbs[i]), None));
    } else {
      TimersKept(s, t, step, id);
    }
  }

  lemma SweptRun(s: State, t: State, step: Step, id: nat)
    requires Next(s, t, step) && step.SweepTimers?
    requires forall i :: 0 <= i < |step.due| ==>
               step.due[i] in s.timers && Callbacks(s.timers, step.due)[i] == s.timers[step.due[i]]
    ensures id in s.timers && id !in t.timers ==>
              id in step.due && step.w in t.workers && t.workers[step.w].at.Swept?
              && s.timers[id] in t.workers[step.w].at.cbs
  {
    hide Callbacks;
    if i :| 0 <= i < |step.due| && step.due[i] == id {
      assert Callbacks(s.timers, step.due)[i] == s.timers[id];
    }
  }

  lemma TimersKept(s: State, t: State, step: Step, id: nat)
    requires Next(s, t, step) && !step.SweepTimers?
    ensures id in s.timers && id !in t.timers ==> step.DisarmTimer?
  {
    hide Eligible, NoneEligible, Stopping, Entries, Calls, Callbacks, Add, Del, Cancel, CancelAll, Dispatch, Has;
  }
}
