/** Workers, the task queue, fibers and event slots as one transition system: every step is one critical
    section of one thread, in any interleaving. */
module Reactor {
  import opened Options
  import opened EventTable

  // ---- State --------------------------------------------------------------------------------

  /** What a fiber is doing: not yet run (`INIT`), running on a worker (`EXEC`) with nothing pending, running
      after it registered itself for an event, parked (`HOLD`) until that registration resumes it, yielded
      (`READY`), or finished (`TERM`). */
  datatype Mode = Fresh | Free(on: nat) | Armed(on: nat) | Parked | Yielded | Done

  /** Where the one handle that will resume a fiber is, unless `delEvent` has dropped it. */
  datatype Place = Nowhere | Slotted | Queued | Taken(w: nat) | Window(w: nat) | Dropped

  datatype FiberRec = FiberRec(mode: Mode, place: Place)

  datatype Entry = Entry(task: Task, pin: Option<nat>)

  /** Where a worker stands in the dispatch loop. `Requeueing` lies between the decrement of the active
      count and the re-submission of a fiber that yielded; `Swept` between taking expired callbacks out
      of the timer set and submitting them. */
  datatype Stage =
    | Scanning
    | Holding(task: Task)
    | Running(f: nat)
    | Requeueing(f: nat)
    | Polling
    | Swept(cbs: seq<nat>)
    | Exited

  datatype WorkerRec = WorkerRec(at: Stage, idleDone: bool)

  datatype State = State(
    queue: seq<Entry>,
    workers: map<nat, WorkerRec>,
    fibers: map<nat, FiberRec>,
    table: Table,
    active: int,
    timers: map<nat, nat>,
    stopAsked: bool)

  // ---- Steps --------------------------------------------------------------------------------

  datatype Step =
    | Take(w: nat, i: nat)
    | NoTask(w: nat)
    | Begin(w: nat, g: nat)
    | SubmitCall(w: nat, c: nat, pin: Option<nat>)
    | SubmitFiber(w: nat, g: nat, pin: Option<nat>)
    | AddSelf(w: nat, fd: nat, ev: Event, ok: bool)
    | AddCall(w: nat, fd: nat, ev: Event, c: nat, ok: bool)
    | DelOne(w: nat, fd: nat, ev: Event, ok: bool)
    | CancelOne(w: nat, fd: nat, ev: Event, ok: bool)
    | CancelFd(w: nat, fd: nat, ok: bool)
    | ArmTimer(w: nat, id: nat, c: nat)
    | DisarmTimer(w: nat, id: nat)
    | YieldReady(w: nat)
    | YieldHold(w: nat)
    | Finish(w: nat)
    | Requeue(w: nat)
    | StopPolling(w: nat)
    | SweepTimers(w: nat, due: seq<nat>, gone: set<nat>)
    | SubmitSwept(w: nat)
    | ReportFd(w: nat, fd: nat, report: Report, ok: bool)
    | LeavePolling(w: nat)
    // threads that are not workers
    | OutsideCall(c: nat, pin: Option<nat>)
    | OutsideFiber(g: nat, pin: Option<nat>)
    | OutsideAdd(fd: nat, ev: Event, c: nat, ok: bool)
    | OutsideDel(fd: nat, ev: Event, ok: bool)
    | OutsideCancel(fd: nat, ev: Event, ok: bool)
    | OutsideCancelFd(fd: nat, ok: bool)
    | OutsideTimer(id: nat, c: nat)
    | AskStop

  predicate IsAt(s: State, w: nat, at: Stage) {
    w in s.workers && s.workers[w].at == at
  }

  function Move(s: State, w: nat, at: Stage): State
    requires w in s.workers
  {
    s.(workers := s.workers[w := s.workers[w].(at := at)])
  }

  /** The fiber's status is `EXEC`. */
  predicate Executing(s: State, f: nat) {
    f in s.fibers && (s.fibers[f].mode.Free? || s.fibers[f].mode.Armed?)
  }

  /** Worker `w` may take the entry: it is not pinned elsewhere and its fiber is not running. */
  predicate Eligible(s: State, w: nat, e: Entry) {
    (e.pin == None || e.pin == Some(w)) && !(e.task.Fiber? && Executing(s, e.task.f))
  }

  predicate NoneEligible(s: State, w: nat, n: nat)
    requires n <= |s.queue|
  {
    forall j :: 0 <= j < n ==> !Eligible(s, w, s.queue[j])
  }

  function SetFiber(s: State, f: nat, mode: Mode, place: Place): State {
    s.(fibers := s.fibers[f := FiberRec(mode, place)])
  }

  function Relocate(s: State, task: Task, place: Place): State {
    if task.Fiber? && task.f in s.fibers then s.(fibers := s.fibers[task.f := s.fibers[task.f].(place := place)]) else s
  }

  function Entries(tasks: seq<Task>): seq<Entry> {
    if tasks == [] then [] else [Entry(tasks[0], None)] + Entries(tasks[1..])
  }

  /** Continuations leave their slots for the queue. */
  function HandOver(s: State, r: (Table, seq<Task>)): State {
    s.(table := r.0,
       queue := s.queue + Entries(r.1),
       fibers := map f | f in s.fibers :: if Fiber(f) in r.1 then s.fibers[f].(place := Queued) else s.fibers[f])
  }

  /** `delEvent`: the continuation that leaves the slot goes nowhere. */
  function Discard(s: State, fd: nat, ev: Event, ok: bool): State {
    var gone := Cancel(s.table, fd, ev, ok).1;
    s.(table := Del(s.table, fd, ev, ok),
       fibers := map f | f in s.fibers :: if Fiber(f) in gone then s.fibers[f].(place := Dropped) else s.fibers[f])
  }

  function Enqueue(s: State, e: Entry): State {
    Relocate(s.(queue := s.queue + [e]), e.task, Queued)
  }

  /** One evaluation of `IOManager::stopping`. */
  predicate Stopping(s: State) {
    s.table.pending == 0 && s.timers == map[] && s.stopAsked && s.queue == [] && s.active == 0
  }

  function Calls(cbs: seq<nat>): seq<Task> {
    if cbs == [] then [] else [Call(cbs[0])] + Calls(cbs[1..])
  }

  /** The fiber that worker `w` runs, if it has registered nothing since it was resumed. */
  predicate RunsFree(s: State, w: nat) {
    w in s.workers && s.workers[w].at.Running? && s.workers[w].at.f in s.fibers
    && s.fibers[s.workers[w].at.f].mode == Free(w)
  }

  /** A thread that is not a worker hands in new work. */
  predicate IsOutside(step: Step) {
    step.OutsideCall? || step.OutsideFiber? || step.OutsideAdd? || step.OutsideTimer?
  }

  predicate Next(s: State, t: State, step: Step) {
    match step
    // under the queue lock: the first entry this worker may take leaves the queue and counts as active
    case Take(w, i) =>
      && IsAt(s, w, Scanning) && i < |s.queue| && Eligible(s, w, s.queue[i]) && NoneEligible(s, w, i)
      && var e := s.queue[i];
      t == Relocate(Move(s, w, Holding(e.task)), e.task, Taken(w))
           .(queue := s.queue[..i] + s.queue[i + 1..], active := s.active + 1)
    case NoTask(w) =>
      && IsAt(s, w, Scanning) && NoneEligible(s, w, |s.queue|)
      && t == Move(s, w, if s.workers[w].idleDone then Exited else Polling)
    // swapIn; a finished fiber is dropped; a callback gets a fiber of its own
    case Begin(w, g) =>
      && w in s.workers && s.workers[w].at.Holding?
      && (match s.workers[w].at.task
          case Fiber(f) =>
            f in s.fibers
            && t == if s.fibers[f].mode == Done
                    then SetFiber(Move(s, w, Scanning), f, Done, Nowhere).(active := s.active - 1)
                    else SetFiber(Move(s, w, Running(f)), f, Free(w), Nowhere)
          case Call(_) => g !in s.fibers && t == SetFiber(Move(s, w, Running(g)), g, Free(w), Nowhere))
    case SubmitCall(w, c, pin) => RunsFree(s, w) && t == Enqueue(s, Entry(Call(c), pin))
    case SubmitFiber(w, g, pin) =>
      RunsFree(s, w) && g !in s.fibers && t == Enqueue(SetFiber(s, g, Fresh, Nowhere), Entry(Fiber(g), pin))
    case AddSelf(w, fd, ev, ok) =>
      && RunsFree(s, w) && |s.table.contexts| > 0 && !Has(s.table, fd, ev)
      && var f := s.workers[w].at.f;
      var u := s.(table := Add(s.table, fd, ev, Fiber(f), ok));
      t == if ok then SetFiber(u, f, Armed(w), Slotted) else u
    case AddCall(w, fd, ev, c, ok) =>
      && RunsFree(s, w) && |s.table.contexts| > 0 && !Has(s.table, fd, ev)
      && t == s.(table := Add(s.table, fd, ev, Call(c), ok))
    case DelOne(w, fd, ev, ok) => RunsFree(s, w) && t == Discard(s, fd, ev, ok)
    case CancelOne(w, fd, ev, ok) => RunsFree(s, w) && t == HandOver(s, Cancel(s.table, fd, ev, ok))
    case CancelFd(w, fd, ok) => RunsFree(s, w) && t == HandOver(s, CancelAll(s.table, fd, ok))
    case ArmTimer(w, id, c) => RunsFree(s, w) && t == s.(timers := s.timers[id := c])
    case DisarmTimer(w, id) => RunsFree(s, w) && t == s.(timers := s.timers - {id})
    case YieldReady(w) =>
      && RunsFree(s, w)
      && var f := s.workers[w].at.f;
      t == SetFiber(Move(s, w, Requeueing(f)), f, Yielded, Window(w)).(active := s.active - 1)
    // the only other way to wait: after addEvent has registered the fiber itself
    case YieldHold(w) =>
      && w in s.workers && s.workers[w].at.Running? && s.workers[w].at.f in s.fibers
      && s.fibers[s.workers[w].at.f].mode == Armed(w)
      && var f := s.workers[w].at.f;
      t == SetFiber(Move(s, w, Scanning), f, Parked, s.fibers[f].place).(active := s.active - 1)
    case Finish(w) =>
      && RunsFree(s, w)
      && t == SetFiber(Move(s, w, Scanning), s.workers[w].at.f, Done, Nowhere).(active := s.active - 1)
    case Requeue(w) =>
      && w in s.workers && s.workers[w].at.Requeueing?
      && t == Enqueue(Move(s, w, Scanning), Entry(Fiber(s.workers[w].at.f), None))
    case StopPolling(w) =>
      && IsAt(s, w, Polling) && Stopping(s)
      && t == s.(workers := s.workers[w := WorkerRec(Scanning, true)])
    // listExpiredCb: callbacks of armed timers; recurring ones stay armed
    case SweepTimers(w, due, gone) =>
      && IsAt(s, w, Polling) && (forall i :: 0 <= i < |due| ==> due[i] in s.timers)
      && (forall id :: id in gone ==> id in due)
      && t == Move(s, w, Swept(Callbacks(s.timers, due))).(timers := s.timers - gone)
    case SubmitSwept(w) =>
      && w in s.workers && s.workers[w].at.Swept?
      && t == Move(s.(queue := s.queue + Entries(Calls(s.workers[w].at.cbs))), w, Polling)
    case ReportFd(w, fd, report, ok) => IsAt(s, w, Polling) && t == HandOver(s, Dispatch(s.table, fd, report, ok))
    case LeavePolling(w) => IsAt(s, w, Polling) && t == Move(s, w, Scanning)
    case OutsideCall(c, pin) => t == Enqueue(s, Entry(Call(c), pin))
    case OutsideFiber(g, pin) =>
      g !in s.fibers && t == Enqueue(SetFiber(s, g, Fresh, Nowhere), Entry(Fiber(g), pin))
    case OutsideAdd(fd, ev, c, ok) =>
      |s.table.contexts| > 0 && !Has(s.table, fd, ev) && t == s.(table := Add(s.table, fd, ev, Call(c), ok))
    case OutsideDel(fd, ev, ok) => t == Discard(s, fd, ev, ok)
    case OutsideCancel(fd, ev, ok) => t == HandOver(s, Cancel(s.table, fd, ev, ok))
    case OutsideCancelFd(fd, ok) => t == HandOver(s, CancelAll(s.table, fd, ok))
    case OutsideTimer(id, c) => t == s.(timers := s.timers[id := c])
    case AskStop => t == s.(stopAsked := true)
  }

  function Callbacks(timers: map<nat, nat>, due: seq<nat>): (cbs: seq<nat>)
    requires forall i :: 0 <= i < |due| ==> due[i] in timers
    ensures |cbs| == |due|
  {
    if due == [] then [] else [timers[due[0]]] + Callbacks(timers, due[1..])
  }

  ghost predicate Start(s: State) {
    && s.queue == [] && s.fibers == map[] && s.active == 0 && s.timers == map[] && !s.stopAsked
    && (forall w :: w in s.workers ==> s.workers[w] == WorkerRec(Scanning, false))
    && |s.table.contexts| > 0 && s.table.kernel == map[] && s.table.pending == 0
    && (forall fd :: 0 <= fd < |s.table.contexts| ==> s.table.contexts[fd] == EMPTY)
  }

  // ---- Invariant ----------------------------------------------------------------------------

  function Queueing(queue: seq<Entry>, x: Task): nat {
    if queue == [] then 0 else (if queue[0].task == x then 1 else 0) + Queueing(queue[1..], x)
  }

  function PlaceOf(s: State, f: nat): Place {
    if f in s.fibers then s.fibers[f].place else Nowhere
  }

  /** The handle of `f` is where `place` says, and in no other place. */
  ghost predicate Tracked(s: State, f: nat) {
    && Waiting(s.table.contexts, Fiber(f)) == (if PlaceOf(s, f) == Slotted then 1 else 0)
    && Queueing(s.queue, Fiber(f)) == (if PlaceOf(s, f) == Queued then 1 else 0)
    && (forall w :: w in s.workers && s.workers[w].at == Holding(Fiber(f)) ==> PlaceOf(s, f) == Taken(w))
    && (forall w :: w in s.workers && s.workers[w].at == Requeueing(f) ==> PlaceOf(s, f) == Window(w))
    && (match PlaceOf(s, f)
        case Taken(w) => IsAt(s, w, Holding(Fiber(f)))
        case Window(w) => IsAt(s, w, Requeueing(f))
        case _ => true)
  }

  predicate Fitting(r: FiberRec) {
    match r.mode
    case Fresh => r.place == Queued || r.place.Taken?
    case Free(_) => r.place == Nowhere
    case Armed(_) => r.place == Slotted || r.place == Queued || r.place == Dropped
    case Parked => r.place == Slotted || r.place == Queued || r.place.Taken? || r.place == Dropped
    case Yielded => r.place == Queued || r.place.Taken? || r.place.Window?
    case Done => r.place == Nowhere
  }

  /** A fiber that waits has a handle, one that runs free or is finished has none; a fiber is
      marked as executing on a worker just when that worker runs it. */
  ghost predicate Consistent(s: State, f: nat) {
    && (f in s.fibers ==> Fitting(s.fibers[f]))
    && (forall w :: w in s.workers && s.workers[w].at == Running(f) ==> Executing(s, f) && s.fibers[f].mode.on == w)
    && (Executing(s, f) ==> IsAt(s, s.fibers[f].mode.on, Running(f)))
  }

  ghost function Busy(workers: map<nat, WorkerRec>): set<nat> {
    set w | w in workers && (workers[w].at.Holding? || workers[w].at.Running?)
  }

  ghost predicate Inv(s: State) {
    && Book(s.table)
    && s.active == |Busy(s.workers)|
    && (forall f: nat :: Tracked(s, f) && Consistent(s, f))
  }

  // ---- Counting in the queue ----------------------------------------------------------------

  lemma {:induction false} QueueingConcat(a: seq<Entry>, b: seq<Entry>, x: Task)
    ensures Queueing(a + b, x) == Queueing(a, x) + Queueing(b, x)
  {
    if a == [] {
      assert a + b == b;
    } else {
      QueueingConcat(a[1..], b, x);
      assert (a + b)[1..] == a[1..] + b;
    }
  }

  lemma QueueingOne(e: Entry, x: Task)
    ensures Queueing([e], x) == if e.task == x then 1 else 0
  {
  }

  lemma QueueingRemove(q: seq<Entry>, i: nat, x: Task)
    requires i < |q|
    ensures Queueing(q[..i] + q[i + 1..], x) + (if q[i].task == x then 1 else 0) == Queueing(q, x)
  {
    assert q == q[..i] + ([q[i]] + q[i + 1..]);
    QueueingConcat(q[..i], [q[i]] + q[i + 1..], x);
    QueueingConcat([q[i]], q[i + 1..], x);
    QueueingConcat(q[..i], q[i + 1..], x);
    QueueingOne(q[i], x);
  }

  lemma {:induction false} QueueingEntries(tasks: seq<Task>, x: Task)
    ensures Queueing(Entries(tasks), x) == Count(tasks, x)
  {
    if tasks != [] {
      QueueingEntries(tasks[1..], x);
      assert Entries(tasks)[1..] == Entries(tasks[1..]);
    }
  }

  lemma {:induction false} CountIn(tasks: seq<Task>, x: Task)
    ensures Count(tasks, x) > 0 <==> x in tasks
  {
    if tasks != [] {
      CountIn(tasks[1..], x);
    }
  }

  lemma {:induction false} CallsNoFiber(cbs: seq<nat>, f: nat)
    ensures Count(Calls(cbs), Fiber(f)) == 0
  {
    if cbs != [] {
      CallsNoFiber(cbs[1..], f);
      assert Calls(cbs)[1..] == Calls(cbs[1..]);
    }
  }

  // ---- Preservation -------------------------------------------------------------------------

  lemma EnqueueTracks(s: State, e: Entry, f: nat)
    ensures Queueing(Enqueue(s, e).queue, Fiber(f)) == Queueing(s.queue, Fiber(f)) + if e.task == Fiber(f) then 1 else 0
  {
    QueueingConcat(s.queue, [e], Fiber(f));
    QueueingOne(e, Fiber(f));
  }

  /** What leaves a slot enters the queue. */
  lemma HandOverTracks(s: State, r: (Table, seq<Task>), f: nat)
    requires Tracked(s, f) && Consistent(s, f)
    requires Waiting(r.0.contexts, Fiber(f)) + Count(r.1, Fiber(f)) == Waiting(s.table.contexts, Fiber(f))
    ensures Tracked(HandOver(s, r), f) && Consistent(HandOver(s, r), f)
  {
    QueueingConcat(s.queue, Entries(r.1), Fiber(f));
    QueueingEntries(r.1, Fiber(f));
    CountIn(r.1, Fiber(f));
  }

  function FiberAt(at: Stage): Option<nat> {
    match at
    case Holding(Fiber(f)) => Some(f)
    case Running(f) => Some(f)
    case Requeueing(f) => Some(f)
    case _ => None
  }

  /** A step of worker `w` about fiber `g` leaves every other fiber as it was. */
  lemma OthersTrack(s: State, t: State, w: nat, g: nat, f: nat)
    requires Tracked(s, f) && Consistent(s, f) && f != g && w in s.workers && w in t.workers
    requires t.workers == s.workers[w := t.workers[w]]
    requires FiberAt(s.workers[w].at) != Some(f) && FiberAt(t.workers[w].at) != Some(f)
    requires (f in t.fibers <==> f in s.fibers) && (f in s.fibers ==> t.fibers[f] == s.fibers[f])
    requires Waiting(t.table.contexts, Fiber(f)) == Waiting(s.table.contexts, Fiber(f))
    requires Queueing(t.queue, Fiber(f)) == Queueing(s.queue, Fiber(f))
    ensures Tracked(t, f) && Consistent(t, f)
  {
  }

  lemma TakeTracks(s: State, t: State, w: nat, i: nat, f: nat)
    requires Tracked(s, f) && Consistent(s, f) && Next(s, t, Take(w, i))
    ensures Tracked(t, f) && Consistent(t, f)
  {
    var task := s.queue[i].task;
    QueueingRemove(s.queue, i, Fiber(f));
    hide Queueing, Waiting;
    if task == Fiber(f) {
      assert PlaceOf(s, f) == Queued;
      OneMoves(s, t, w, f);
    } else {
      OthersTrack(s, t, w, if task.Fiber? then task.f else f + 1, f);
    }
  }

  /** The fiber that a step of worker `w` is about. */
  lemma OneMoves(s: State, t: State, w: nat, f: nat)
    requires Tracked(s, f) && Consistent(s, f) && w in s.workers && w in t.workers && f in t.fibers
    requires t.workers == s.workers[w := t.workers[w]]
    requires FiberAt(s.workers[w].at) == Some(f) || (PlaceOf(s, f) == Queued && !Executing(s, f)) || f !in s.fibers
    requires Waiting(t.table.contexts, Fiber(f)) == if PlaceOf(t, f) == Slotted then 1 else 0
    requires Queueing(t.queue, Fiber(f)) == if PlaceOf(t, f) == Queued then 1 else 0
    requires t.workers[w].at == Holding(Fiber(f)) <==> t.fibers[f].place == Taken(w)
    requires t.workers[w].at == Requeueing(f) <==> t.fibers[f].place == Window(w)
    requires t.fibers[f].place.Taken? ==> t.fibers[f].place == Taken(w)
    requires t.fibers[f].place.Window? ==> t.fibers[f].place == Window(w)
    requires t.workers[w].at == Running(f) <==> Executing(t, f)
    requires Executing(t, f) ==> t.fibers[f].mode.on == w
    requires Fitting(t.fibers[f])
    ensures Tracked(t, f) && Consistent(t, f)
  {
  }

  lemma BeginTracks(s: State, t: State, w: nat, g: nat, f: nat)
    requires Tracked(s, f) && Consistent(s, f) && Next(s, t, Begin(w, g))
    ensures Tracked(t, f) && Consistent(t, f)
  {
    var task := s.workers[w].at.task;
    hide Queueing, Waiting;
    if task == Fiber(f) || (task.Call? && f == g) {
      OneMoves(s, t, w, f);
    } else {
      OthersTrack(s, t, w, if task.Fiber? then task.f else g, f);
    }
  }

  lemma SubmitTracks(s: State, t: State, g: nat, pin: Option<nat>, f: nat)
    requires Tracked(s, f) && Consistent(s, f) && g !in s.fibers
    requires t == Enqueue(SetFiber(s, g, Fresh, Nowhere), Entry(Fiber(g), pin))
    ensures Tracked(t, f) && Consistent(t, f)
  {
    EnqueueTracks(SetFiber(s, g, Fresh, Nowhere), Entry(Fiber(g), pin), f);
  }

  lemma AddTracks(s: State, t: State, w: nat, fd: nat, ev: Event, ok: bool, f: nat)
    requires Book(s.table) && Tracked(s, f) && Consistent(s, f) && Next(s, t, AddSelf(w, fd, ev, ok))
    ensures Tracked(t, f) && Consistent(t, f)
  {
    AddWaits(s.table, fd, ev, Fiber(s.workers[w].at.f), ok, Fiber(f));
  }

  lemma YieldTracks(s: State, t: State, step: Step, f: nat)
    requires Tracked(s, f) && Consistent(s, f) && Next(s, t, step)
    requires step.YieldReady? || step.YieldHold? || step.Finish?
    ensures Tracked(t, f) && Consistent(t, f)
  {
    hide Queueing, Waiting;
    var w := step.w;
    if s.workers[w].at.f == f {
      OneMoves(s, t, w, f);
    } else {
      OthersTrack(s, t, w, s.workers[w].at.f, f);
    }
  }

  lemma RequeueTracks(s: State, t: State, w: nat, f: nat)
    requires Tracked(s, f) && Consistent(s, f) && Next(s, t, Requeue(w))
    ensures Tracked(t, f) && Consistent(t, f)
  {
    var g := s.workers[w].at.f;
    EnqueueTracks(Move(s, w, Scanning), Entry(Fiber(g), None), f);
    hide Queueing, Waiting;
    if g == f {
      assert PlaceOf(s, f) == Window(w);
      OneMoves(s, t, w, f);
    } else {
      OthersTrack(s, t, w, g, f);
    }
  }

  /** A worker moves between stages without a fiber. */
  lemma MoveTracks(s: State, t: State, w: nat, f: nat)
    requires Tracked(s, f) && Consistent(s, f)
    requires t.fibers == s.fibers && t.table == s.table && t.queue == s.queue
    requires w in s.workers && w in t.workers && t.workers == s.workers[w := t.workers[w]]
    requires NoFiberAt(s.workers[w].at) && NoFiberAt(t.workers[w].at)
    ensures Tracked(t, f) && Consistent(t, f)
  {
    hide Waiting, Queueing;
  }

  predicate NoFiberAt(at: Stage) {
    at.Scanning? || at.Polling? || at.Swept? || at.Exited?
  }

  /** Steps on the event table, of workers and of other threads. */
  predicate OnTable(step: Step) {
    step.AddSelf? || step.AddCall? || step.DelOne? || step.CancelOne? || step.CancelFd? || step.ReportFd?
    || step.OutsideAdd? || step.OutsideDel? || step.OutsideCancel? || step.OutsideCancelFd?
  }

  predicate Registers(step: Step) {
    step.AddSelf? || step.AddCall? || step.OutsideAdd?
  }

  /** Steps that put a task in the queue, or touch timers, without moving a worker. */
  predicate Submits(step: Step) {
    step.SubmitCall? || step.SubmitFiber? || step.ArmTimer? || step.DisarmTimer?
    || step.OutsideCall? || step.OutsideFiber? || step.OutsideTimer? || step.AskStop?
  }

  /** What a step on the table does to the fibers and the queue: a registration, or a handing over. */
  lemma TableStepTracks(s: State, t: State, step: Step, f: nat)
    requires Book(s.table) && Tracked(s, f) && Consistent(s, f)
    requires Next(s, t, step) && OnTable(step)
    ensures Tracked(t, f) && Consistent(t, f)
  {
    hide Tracked, Consistent, Waiting, Queueing, Count, Add, Cancel, CancelAll, Dispatch, Book, HandOver, Discard, Busy;
    match step
    case AddSelf(w, fd, ev, ok) => AddTracks(s, t, w, fd, ev, ok, f);
    case AddCall(w, fd, ev, c, ok) => AddCallTracks(s, fd, ev, c, ok, f);
    case OutsideAdd(fd, ev, c, ok) => AddCallTracks(s, fd, ev, c, ok, f);
    case DelOne(w, fd, ev, ok) => DelTracks(s, fd, ev, ok, f);
    case OutsideDel(fd, ev, ok) => DelTracks(s, fd, ev, ok, f);
    case CancelOne(w, fd, ev, ok) => CancelTracks(s, fd, ev, ok, f);
    case OutsideCancel(fd, ev, ok) => CancelTracks(s, fd, ev, ok, f);
    case CancelFd(w, fd, ok) => CancelAllTracks(s, fd, ok, f);
    case OutsideCancelFd(fd, ok) => CancelAllTracks(s, fd, ok, f);
    case ReportFd(w, fd, report, ok) => DispatchTracks(s, fd, report, ok, f);
  }

  lemma DispatchTracks(s: State, fd: nat, report: Report, ok: bool, f: nat)
    requires Book(s.table) && Tracked(s, f) && Consistent(s, f)
    ensures var t := HandOver(s, Dispatch(s.table, fd, report, ok)); Tracked(t, f) && Consistent(t, f)
  {
    hide Tracked, Consistent, Book, Dispatch, HandOver, Waiting, Count;
    DispatchSchedules(s.table, fd, report, ok, Fiber(f));
    HandOverTracks(s, Dispatch(s.table, fd, report, ok), f);
  }

  lemma AddCallTracks(s: State, fd: nat, ev: Event, c: nat, ok: bool, f: nat)
    requires Book(s.table) && Tracked(s, f) && Consistent(s, f) && !Has(s.table, fd, ev)
    ensures var t := s.(table := Add(s.table, fd, ev, Call(c), ok)); Tracked(t, f) && Consistent(t, f)
  {
    hide Tracked, Consistent, Add, Waiting;
    AddWaits(s.table, fd, ev, Call(c), ok, Fiber(f));
    TableTracks(s, s.(table := Add(s.table, fd, ev, Call(c), ok)), f);
  }

  lemma CancelTracks(s: State, fd: nat, ev: Event, ok: bool, f: nat)
    requires Book(s.table) && Tracked(s, f) && Consistent(s, f)
    ensures var t := HandOver(s, Cancel(s.table, fd, ev, ok)); Tracked(t, f) && Consistent(t, f)
  {
    hide Tracked, Consistent, Book, Cancel, HandOver, Waiting, Count;
    CancelSchedules(s.table, fd, ev, ok, Fiber(f));
    HandOverTracks(s, Cancel(s.table, fd, ev, ok), f);
  }

  lemma CancelAllTracks(s: State, fd: nat, ok: bool, f: nat)
    requires Book(s.table) && Tracked(s, f) && Consistent(s, f)
    ensures var t := HandOver(s, CancelAll(s.table, fd, ok)); Tracked(t, f) && Consistent(t, f)
  {
    hide Tracked, Consistent, Book, CancelAll, HandOver, Waiting, Count;
    CancelAllSchedules(s.table, fd, ok, Fiber(f));
    HandOverTracks(s, CancelAll(s.table, fd, ok), f);
  }

  lemma SubmitStepTracks(s: State, t: State, step: Step, f: nat)
    requires Book(s.table) && Tracked(s, f) && Consistent(s, f)
    requires Next(s, t, step) && Submits(step)
    ensures Tracked(t, f) && Consistent(t, f)
  {
    hide Tracked, Consistent, Waiting, Queueing, Book, Busy, Enqueue;
    match step
    case SubmitCall(w, c, pin) => CallTracks(s, c, pin, f);
    case OutsideCall(c, pin) => CallTracks(s, c, pin, f);
    case SubmitFiber(w, g, pin) => SubmitTracks(s, t, g, pin, f);
    case OutsideFiber(g, pin) => SubmitTracks(s, t, g, pin, f);
    case _ => SameTracks(s, t, f);
  }

  lemma SameTracks(s: State, t: State, f: nat)
    requires Tracked(s, f) && Consistent(s, f)
    requires t.fibers == s.fibers && t.table == s.table && t.queue == s.queue && t.workers == s.workers
    ensures Tracked(t, f) && Consistent(t, f)
  {
  }

  lemma WorkerStepTracks(s: State, t: State, step: Step, f: nat)
    requires Book(s.table) && Tracked(s, f) && Consistent(s, f)
    requires Next(s, t, step) && !OnTable(step) && !Submits(step)
    ensures Tracked(t, f) && Consistent(t, f)
  {
    hide Tracked, Consistent, Waiting, Queueing, Book, Busy, Entries, Calls, Callbacks, Stopping, NoneEligible;
    match step
    case Take(w, i) => TakeTracks(s, t, w, i, f);
    case Begin(w, g) => BeginTracks(s, t, w, g, f);
    case YieldReady(w) => YieldTracks(s, t, step, f);
    case YieldHold(w) => YieldTracks(s, t, step, f);
    case Finish(w) => YieldTracks(s, t, step, f);
    case Requeue(w) => RequeueTracks(s, t, w, f);
    case SubmitSwept(w) =>
      var cbs := s.workers[w].at.cbs;
      CallsTrack(s, cbs, f);
      MoveTracks(s.(queue := s.queue + Entries(Calls(cbs))), t, w, f);
    case NoTask(w) => MoveTracks(s, t, w, f);
    case StopPolling(w) => MoveTracks(s, t, w, f);
    case SweepTimers(w, due, gone) => MoveTracks(s, t, w, f);
    case LeavePolling(w) => MoveTracks(s, t, w, f);
  }

  lemma FiberTracks(s: State, t: State, step: Step, f: nat)
    requires Inv(s) && Next(s, t, step)
    ensures Tracked(t, f) && Consistent(t, f)
  {
    assert Book(s.table) && Tracked(s, f) && Consistent(s, f);
    hide Inv, Next, Tracked, Consistent, Book, OnTable, Submits;
    if OnTable(step) {
      TableStepTracks(s, t, step, f);
    } else if Submits(step) {
      SubmitStepTracks(s, t, step, f);
    } else {
      WorkerStepTracks(s, t, step, f);
    }
  }

  lemma CallTracks(s: State, c: nat, pin: Option<nat>, f: nat)
    requires Tracked(s, f) && Consistent(s, f)
    ensures Tracked(Enqueue(s, Entry(Call(c), pin)), f) && Consistent(Enqueue(s, Entry(Call(c), pin)), f)
  {
    EnqueueTracks(s, Entry(Call(c), pin), f);
  }

  lemma CallsTrack(s: State, cbs: seq<nat>, f: nat)
    requires Tracked(s, f) && Consistent(s, f)
    ensures var t := s.(queue := s.queue + Entries(Calls(cbs))); Tracked(t, f) && Consistent(t, f)
  {
    QueueingConcat(s.queue, Entries(Calls(cbs)), Fiber(f));
    QueueingEntries(Calls(cbs), Fiber(f));
    CallsNoFiber(cbs, f);
  }

  lemma TableTracks(s: State, t: State, f: nat)
    requires Tracked(s, f) && Consistent(s, f) && t == s.(table := t.table)
    requires Waiting(t.table.contexts, Fiber(f)) == Waiting(s.table.contexts, Fiber(f))
    ensures Tracked(t, f) && Consistent(t, f)
  {
  }

  /** What leaves a slot is dropped. */
  lemma DelTracks(s: State, fd: nat, ev: Event, ok: bool, f: nat)
    requires Book(s.table) && Tracked(s, f) && Consistent(s, f)
    ensures var t := Discard(s, fd, ev, ok); Tracked(t, f) && Consistent(t, f)
  {
    CancelSchedules(s.table, fd, ev, ok, Fiber(f));
    CountIn(Cancel(s.table, fd, ev, ok).1, Fiber(f));
    DelIsCancel(s.table, fd, ev, ok);
    hide Cancel, Del, Waiting, Queueing, Count, Book;
  }

  lemma DelIsCancel(t: Table, fd: nat, ev: Event, ok: bool)
    ensures Del(t, fd, ev, ok) == Cancel(t, fd, ev, ok).0
  {
  }

  lemma BookNext(s: State, t: State, step: Step)
    requires Book(s.table) && Next(s, t, step)
    ensures Book(t.table)
  {
    hide Book;
    if OnTable(step) {
      TableStepBook(s, t, step);
    } else {
      TableKept(s, t, step);
    }
  }

  lemma TableKept(s: State, t: State, step: Step)
    requires Next(s, t, step) && !OnTable(step)
    ensures t.table == s.table
  {
    hide Eligible, NoneEligible, Stopping, Entries, Calls, Callbacks;
  }

  lemma TableStepBook(s: State, t: State, step: Step)
    requires Book(s.table) && Next(s, t, step) && OnTable(step)
    ensures Book(t.table)
  {
    hide Book, Next;
    if Registers(step) {
      AddStepBook(s, t, step);
    } else {
      LeaveStepBook(s, t, step);
    }
  }

  lemma AddStepBook(s: State, t: State, step: Step)
    requires Book(s.table) && Next(s, t, step) && Registers(step)
    ensures Book(t.table)
  {
    hide Book, Add;
    match step
    case AddSelf(w, fd, ev, ok) => AddKeepsBook(s.table, fd, ev, Fiber(s.workers[w].at.f), ok);
    case AddCall(w, fd, ev, c, ok) => AddKeepsBook(s.table, fd, ev, Call(c), ok);
    case OutsideAdd(fd, ev, c, ok) => AddKeepsBook(s.table, fd, ev, Call(c), ok);
  }

  lemma LeaveStepBook(s: State, t: State, step: Step)
    requires Book(s.table) && Next(s, t, step) && OnTable(step) && !Registers(step)
    ensures Book(t.table)
  {
    hide Book, Del, Cancel, CancelAll, Dispatch, Waiting, Count, HandOver, Discard, RunsFree;
    match step
    case DelOne(w, fd, ev, ok) => DiscardBook(s, fd, ev, ok);
    case OutsideDel(fd, ev, ok) => DiscardBook(s, fd, ev, ok);
    case CancelOne(w, fd, ev, ok) =>
      CancelSchedules(s.table, fd, ev, ok, Call(0));
      HandOverTable(s, Cancel(s.table, fd, ev, ok));
    case OutsideCancel(fd, ev, ok) =>
      CancelSchedules(s.table, fd, ev, ok, Call(0));
      HandOverTable(s, Cancel(s.table, fd, ev, ok));
    case CancelFd(w, fd, ok) =>
      CancelAllSchedules(s.table, fd, ok, Call(0));
      HandOverTable(s, CancelAll(s.table, fd, ok));
    case OutsideCancelFd(fd, ok) =>
      CancelAllSchedules(s.table, fd, ok, Call(0));
      HandOverTable(s, CancelAll(s.table, fd, ok));
    case ReportFd(w, fd, report, ok) =>
      DispatchSchedules(s.table, fd, report, ok, Call(0));
      HandOverTable(s, Dispatch(s.table, fd, report, ok));
  }

  lemma DiscardBook(s: State, fd: nat, ev: Event, ok: bool)
    requires Book(s.table)
    ensures Book(Discard(s, fd, ev, ok).table)
  {
    hide Book, Del;
    DelKeepsBook(s.table, fd, ev, ok);
  }

  lemma HandOverTable(s: State, r: (Table, seq<Task>))
    ensures HandOver(s, r).table == r.0
  {
  }

  lemma DelKeepsBook(t: Table, fd: nat, ev: Event, ok: bool)
    requires Book(t)
    ensures Book(Del(t, fd, ev, ok))
  {
    if Has(t, fd, ev) {
      ClearKeepsBook(t, fd, ev);
    }
  }

  function Counts(at: Stage): int {
    if at.Holding? || at.Running? then 1 else 0
  }

  lemma BusyMove(workers: map<nat, WorkerRec>, w: nat, r: WorkerRec)
    requires w in workers
    ensures |Busy(workers[w := r])| == |Busy(workers)| - Counts(workers[w].at) + Counts(r.at)
  {
    var before, now := Busy(workers), Busy(workers[w := r]);
    assert now - {w} == before - {w};
    assert w in before ==> before == (before - {w}) + {w};
    assert w in now ==> now == (now - {w}) + {w};
    assert w !in before ==> before - {w} == before;
    assert w !in now ==> now - {w} == now;
  }

  /** The active count follows the workers that hold a taken entry, on every branch of the dispatch loop. */
  lemma ActiveNext(s: State, t: State, step: Step)
    requires s.active == |Busy(s.workers)| && Next(s, t, step)
    ensures t.active == |Busy(t.workers)|
  {
    hide Busy;
    if OnTable(step) || Submits(step) {
      WorkersKept(s, t, step);
    } else {
      var w := step.w;
      OneWorkerMoves(s, t, step, w);
      BusyMove(s.workers, w, t.workers[w]);
    }
  }

  lemma WorkersKept(s: State, t: State, step: Step)
    requires Next(s, t, step) && (OnTable(step) || Submits(step))
    ensures t.workers == s.workers && t.active == s.active
  {
    hide Add, Del, Cancel, CancelAll, Dispatch, Entries, Has;
  }

  lemma OneWorkerMoves(s: State, t: State, step: Step, w: nat)
    requires Next(s, t, step) && !OnTable(step) && !Submits(step) && w == step.w
    ensures w in s.workers && w in t.workers && t.workers == s.workers[w := t.workers[w]]
    ensures t.active == s.active - Counts(s.workers[w].at) + Counts(t.workers[w].at)
  {
    hide Entries, Calls, Callbacks, Eligible, NoneEligible, Stopping;
  }

  lemma InvNext(s: State, t: State, step: Step)
    requires Inv(s) && Next(s, t, step)
    ensures Inv(t)
  {
    hide Next, Tracked, Consistent, Book, Busy;
    BookNext(s, t, step);
    ActiveNext(s, t, step);
    forall f: nat
      ensures Tracked(t, f) && Consistent(t, f)
    {
      FiberTracks(s, t, step, f);
    }
  }

  lemma InvStart(s: State)
    requires Start(s)
    ensures Inv(s)
  {
    var n := |s.table.contexts|;
    assert s.table.contexts == [] + seq(n, _ => EMPTY);
    SumBitsGrow([], n);
    assert Busy(s.workers) == {};
    forall f: nat
      ensures Tracked(s, f)
    {
      WaitingGrow([], n, Fiber(f));
    }
  }

  ghost predicate Behavior(run: seq<State>, steps: seq<Step>) {
    && |run| == |steps| + 1 && Start(run[0])
    && forall i :: 0 <= i < |steps| ==> Next(run[i], run[i + 1], steps[i])
  }

  lemma {:induction false} InvHolds(run: seq<State>, steps: seq<Step>, n: nat)
    requires Behavior(run, steps) && n < |run|
    ensures Inv(run[n])
  {
    hide Inv, Next, Start;
    if n == 0 {
      InvStart(run[0]);
    } else {
      InvHolds(run, steps, n - 1);
      InvNext(run[n - 1], run[n], steps[n - 1]);
    }
  }
}
