/** What `delEvent` does to a fiber: dropped once, it is never resumed, and no shutdown sees it finish. */
module Discarding {
  import opened Options
  import opened EventTable
  import opened Reactor
  import opened Dispatching
  import opened Shutdown

  predicate IsDropped(s: State, f: nat) {
    PlaceOf(s, f) == Dropped
  }

  /** The step leaves dropped fibers dropped, swaps none in, keeps parked ones as they are, and drops just those
      whose registration it takes out of its slot. */
  predicate DropsRight(s: State, t: State, step: Step, f: nat) {
    && (IsDropped(t, f) <==> IsDropped(s, f) || Drops(s, step, f) == 1)
    && (IsDropped(s, f) ==> Drops(s, step, f) == 0 && Resumes(s, step, f) == 0)
    && (IsDropped(s, f) && s.fibers[f].mode == Parked ==> f in t.fibers && t.fibers[f] == s.fibers[f])
  }

  lemma DropNext(s: State, t: State, step: Step, f: nat)
    requires Inv(s) && Next(s, t, step)
    ensures DropsRight(s, t, step, f)
  {
    assert Book(s.table) && Tracked(s, f) && Consistent(s, f);
    hide Inv, Book, Tracked, Consistent, Busy, DropsRight;
    if Registers(step) {
      DropAdd(s, t, step, f);
    } else if OnTable(step) {
      DropTable(s, t, step, f);
    } else if Submits(step) {
      DropSubmit(s, t, step, f);
    } else {
      DropWorker(s, t, step, f);
    }
  }

  lemma DropAdd(s: State, t: State, step: Step, f: nat)
    requires Tracked(s, f) && Consistent(s, f) && Next(s, t, step) && Registers(step)
    ensures DropsRight(s, t, step, f)
  {
    hide Waiting, Queueing, Add, Cancel, Has;
  }

  lemma DropSubmit(s: State, t: State, step: Step, f: nat)
    requires Next(s, t, step) && Submits(step)
    ensures DropsRight(s, t, step, f)
  {
    hide Next, Cancel;
    SubmitFibers(s, t, step, f);
  }

  lemma DropWorker(s: State, t: State, step: Step, f: nat)
    requires Tracked(s, f) && Consistent(s, f) && Next(s, t, step) && !OnTable(step) && !Submits(step)
    ensures DropsRight(s, t, step, f)
  {
    hide Waiting, Cancel, Stopping, Eligible, NoneEligible, Callbacks, Entries, Calls;
    if step.Take? {
      QueueingRemove(s.queue, step.i, Fiber(f));
    }
  }

  lemma DropTable(s: State, t: State, step: Step, f: nat)
    requires Book(s.table) && Tracked(s, f) && Consistent(s, f)
    requires Next(s, t, step) && OnTable(step) && !Registers(step)
    ensures DropsRight(s, t, step, f)
  {
    hide Tracked, Consistent, Waiting, Count, Cancel, CancelAll, Dispatch, Book, HandOver, Discard, RunsFree, DropsRight;
    var x := Fiber(f);
    match step
    case CancelOne(w, fd, ev, ok) =>
      CancelSchedules(s.table, fd, ev, ok, x);
      DropHandOver(s, Cancel(s.table, fd, ev, ok), step, f);
    case OutsideCancel(fd, ev, ok) =>
      CancelSchedules(s.table, fd, ev, ok, x);
      DropHandOver(s, Cancel(s.table, fd, ev, ok), step, f);
    case DelOne(w, fd, ev, ok) => DropDiscard(s, fd, ev, ok, step, f);
    case OutsideDel(fd, ev, ok) => DropDiscard(s, fd, ev, ok, step, f);
    case CancelFd(w, fd, ok) =>
      CancelAllSchedules(s.table, fd, ok, x);
      DropHandOver(s, CancelAll(s.table, fd, ok), step, f);
    case OutsideCancelFd(fd, ok) =>
      CancelAllSchedules(s.table, fd, ok, x);
      DropHandOver(s, CancelAll(s.table, fd, ok), step, f);
    case ReportFd(w, fd, report, ok) =>
      DispatchSchedules(s.table, fd, report, ok, x);
      DropHandOver(s, Dispatch(s.table, fd, report, ok), step, f);
    case _ =>
  }

  lemma DropHandOver(s: State, r: (Table, seq<Task>), step: Step, f: nat)
    requires OnTable(step) && !step.DelOne? && !step.OutsideDel?
    requires Tracked(s, f) && Consistent(s, f)
    requires Waiting(r.0.contexts, Fiber(f)) + Count(r.1, Fiber(f)) == Waiting(s.table.contexts, Fiber(f))
    ensures DropsRight(s, HandOver(s, r), step, f)
  {
    LeavesSlot(s, r, f);
    hide Tracked, Consistent, Waiting, Count;
  }

  lemma DropDiscard(s: State, fd: nat, ev: Event, ok: bool, step: Step, f: nat)
    requires step.OutsideDel? || step.DelOne?
    requires step.fd == fd && step.ev == ev && step.ok == ok
    requires Book(s.table) && Tracked(s, f) && Consistent(s, f)
    ensures DropsRight(s, Discard(s, fd, ev, ok), step, f)
  {
    hide Tracked, Consistent, Waiting, Count, Book, Cancel;
    CancelSchedules(s.table, fd, ev, ok, Fiber(f));
    LeavesSlot(s, Cancel(s.table, fd, ev, ok), f);
  }

  // ---- Over a run ---------------------------------------------------------------------------

  /** In every run a fiber is dropped at most once, and from then on, and only then, it is marked as dropped. */
  lemma {:induction false} DroppedOnce(run: seq<State>, steps: seq<Step>, n: nat, f: nat)
    requires Behavior(run, steps) && n <= |steps| < |run|
    ensures DroppedBy(run, steps, n, f) == if IsDropped(run[n], f) then 1 else 0
  {
    hide Next, Behavior, Inv, IsDropped, Drops;
    if n == 0 {
      NoneDroppedYet(run, steps, f);
    } else {
      DroppedOnce(run, steps, n - 1, f);
      InvHolds(run, steps, n - 1);
      StepTaken(run, steps, n - 1);
      DropNext(run[n - 1], run[n], steps[n - 1], f);
      DropsOnce(run[n - 1], steps[n - 1], f);
    }
  }

  lemma DropsOnce(s: State, step: Step, f: nat)
    ensures Drops(s, step, f) <= 1
  {
  }

  lemma NoneDroppedYet(run: seq<State>, steps: seq<Step>, f: nat)
    requires Behavior(run, steps)
    ensures !IsDropped(run[0], f)
  {
  }

  /** A dropped fiber that is parked stays so, whatever follows: nothing ever resumes it. */
  lemma {:induction false} StaysParked(run: seq<State>, steps: seq<Step>, i: nat, n: nat, f: nat)
    requires Path(run, steps) && i <= n <= |steps| < |run| && Inv(run[i])
    requires f in run[i].fibers && run[i].fibers[f] == FiberRec(Parked, Dropped)
    ensures Inv(run[n]) && f in run[n].fibers && run[n].fibers[f] == FiberRec(Parked, Dropped)
    ensures Resumed(run, steps, n, f) == Resumed(run, steps, i, f)
  {
    hide Inv, Next, Path, Resumes, Drops;
    if n > i {
      StaysParked(run, steps, i, n - 1, f);
      PathStep(run, steps, n - 1);
      InvNext(run[n - 1], run[n], steps[n - 1]);
      DropNext(run[n - 1], run[n], steps[n - 1], f);
    }
  }

  /** When shutdown is final, a fiber has not run to its end exactly when `delEvent` has dropped its registration,
      and then nothing resumes it ever after. */
  lemma UnfinishedIffDropped(run: seq<State>, steps: seq<Step>, i: nat, n: nat, f: nat)
    requires Behavior(run, steps) && i <= n <= |steps| < |run| && Quiet(run[i]) && f in run[i].fibers
    ensures run[i].fibers[f].mode != Done <==> DroppedBy(run, steps, i, f) == 1
    ensures run[i].fibers[f].mode != Done ==>
              && f in run[n].fibers && run[n].fibers[f] == FiberRec(Parked, Dropped)
              && Resumed(run, steps, n, f) == Resumed(run, steps, i, f)
  {
    InvHolds(run, steps, i);
    DroppedOnce(run, steps, i, f);
    FiberSettled(run[i], f);
    assert Consistent(run[i], f);
    BehaviorPath(run, steps);
    hide Behavior, Path, Inv, Quiet, Resumed, DroppedBy;
    if run[i].fibers[f].mode != Done {
      StaysParked(run, steps, i, n, f);
    }
  }

  // ---- A run that ends so -------------------------------------------------------------------

  /** A callback waits for an event, another thread deletes the registration, and shutdown is called for. */
  const SCENE: seq<Step> := [
    OutsideCall(0, None), Take(0, 0), Begin(0, 0), AddSelf(0, 0, READ, true), YieldHold(0), OutsideDel(0, READ, true),
    AskStop]

  /** A lone worker and the fiber of the callback. */
  function With(at: Stage, f: FiberRec, table: Table, active: int): State {
    State([], map[0 := On(at)], map[0 := f], table, active, map[], false)
  }

  /** The state before step `i` of the scene. */
  function Scene(i: nat): State {
    match i
    case 0 => State([], map[0 := On(Scanning)], map[], NO_EVENTS, 0, map[], false)
    case 1 => Scene(0).(queue := [Entry(Call(0), None)])
    case 2 => Scene(0).(workers := map[0 := On(Holding(Call(0)))], active := 1)
    case 3 => With(Running(0), FiberRec(Free(0), Nowhere), NO_EVENTS, 1)
    case 4 => With(Running(0), FiberRec(Armed(0), Slotted), WATCHING, 1)
    case 5 => With(Scanning, FiberRec(Parked, Slotted), WATCHING, 0)
    case 6 => With(Scanning, FiberRec(Parked, Dropped), NO_EVENTS, 0)
    case _ => With(Scanning, FiberRec(Parked, Dropped), NO_EVENTS, 0).(stopAsked := true)
  }

  lemma SceneBegins(i: nat)
    requires i < 3 || i == 6
    ensures Next(Scene(i), Scene(i + 1), SCENE[i])
  {
    assert Scene(1).queue[..0] + Scene(1).queue[1..] == [];
  }

  lemma SceneWaits(i: nat)
    requires 3 <= i < 5
    ensures Next(Scene(i), Scene(i + 1), SCENE[i])
  {
    Registers0();
    hide Add;
  }

  lemma SceneDrops()
    ensures Next(Scene(5), Scene(6), SCENE[5])
  {
    Unregisters0();
    hide Cancel, Del;
    assert Fiber(0) in [Fiber(0)];
  }

  lemma Unregisters0()
    ensures Cancel(WATCHING, 0, READ, true) == (NO_EVENTS, [Fiber(0)])
    ensures Del(WATCHING, 0, READ, true) == NO_EVENTS
  {
    DelIsCancel(WATCHING, 0, READ, true);
    var r := Cancel(WATCHING, 0, READ, true);
    assert {READ} - {READ} == {};
    assert r.0.contexts[0] == EMPTY;
    assert r.0.contexts == NO_EVENTS.contexts;
    assert r.0.kernel == NO_EVENTS.kernel;
  }

  /** Shutdown can be final while a fiber is parked for good. */
  lemma DroppedAtShutdown() returns (run: seq<State>, steps: seq<Step>)
    ensures Behavior(run, steps) && |steps| == 7 && steps[5] == OutsideDel(0, READ, true)
    ensures 0 in run[5].fibers && run[5].fibers[0] == FiberRec(Parked, Slotted)
    ensures Quiet(run[7]) && 0 in run[7].fibers && run[7].fibers[0] == FiberRec(Parked, Dropped)
  {
    run, steps := seq(8, i requires 0 <= i => Scene(i)), SCENE;
    assert Start(run[0]) && run[5] == Scene(5) && run[7] == Scene(7);
    assert forall w: nat :: !InHand(Scene(7), w);
    forall i | 0 <= i < |steps|
      ensures Next(run[i], run[i + 1], steps[i])
    {
      hide Scene, Next;
      if i < 3 || i == 6 {
        SceneBegins(i);
      } else if i < 5 {
        SceneWaits(i);
      } else {
        SceneDrops();
      }
    }
  }
}
