/** The dispatch loop as a worker runs it: scanning the queue, resuming what it took, and the status of
    the fibers it resumes. */
module DispatchLoop {
  import opened Options
  import opened EventTable
  import opened Reactor

  datatype Status = INIT | HOLD | EXEC | TERM | READY | EXCEPT

  /** How the code of a fiber comes back to the loop. */
  datatype Ending = YieldedReady | YieldedHold | Finished | Threw

  class Fiber {
    const id: nat
    var status: Status

    constructor (id: nat)
      ensures this.id == id && status == INIT
    {
      this.id, status := id, INIT;
    }

    /** What the destructor asserts, and `reset` too. */
    predicate Idle()
      reads this
    {
      status == TERM || status == EXCEPT || status == INIT
    }

    method Reset()
      requires Idle()
      modifies this
      ensures status == INIT
    {
      status := INIT;
    }

    method SwapIn()
      requires status != EXEC
      modifies this
      ensures status == EXEC
    {
      status := EXEC;
    }

    /** `EXCEPT` is not spared: it becomes `HOLD`. */
    method SwapOut()
      modifies this
      ensures status == if old(status) == TERM || old(status) == READY then old(status) else HOLD
    {
      if status != TERM {
        if status != READY {
          status := HOLD;
        }
      }
    }

    method YieldToReady()
      requires status == EXEC
      modifies this
      ensures status == READY
    {
      status := READY;
      SwapOut();
    }

    method YieldToHold()
      requires status == EXEC
      modifies this
      ensures status == HOLD
    {
      status := HOLD;
      SwapOut();
    }

    /** The end of `MainFunc`. */
    method MainFunc(threw: bool)
      requires status == EXEC
      modifies this
      ensures status == if threw then HOLD else TERM
    {
      status := if threw then EXCEPT else TERM;
      SwapOut();
    }

    /** Swap in, let the fiber run until it comes back. */
    method Resume(end: Ending)
      requires status != EXEC
      modifies this
      ensures status == Left(end)
    {
      SwapIn();
      match end
      case YieldedReady => YieldToReady();
      case YieldedHold => YieldToHold();
      case Finished => MainFunc(false);
      case Threw => MainFunc(true);
    }
  }

  /** The status the loop finds. A fiber that threw looks like one that is parked. */
  function Left(end: Ending): Status {
    match end
    case YieldedReady => READY
    case YieldedHold => HOLD
    case Finished => TERM
    case Threw => HOLD
  }

  class Schedular {
    var fibers: seq<Entry>
    var active: int

    constructor ()
      ensures fibers == [] && active == 0
    {
      fibers, active := [], 0;
    }

    /** `_scheduleNoLock` */
    method ScheduleNoLock(e: Entry) returns (needTickle: bool)
      modifies this`fibers
      ensures fibers == old(fibers) + [e] && needTickle == (old(fibers) == [])
    {
      needTickle := fibers == [];
      fibers := fibers + [e];
    }

    /** `schedule` of a range: the batch follows what is queued, in order; idle workers are told iff it was empty. */
    method ScheduleAll(batch: seq<Entry>) returns (needTickle: bool)
      modifies this`fibers
      ensures fibers == old(fibers) + batch && needTickle == (old(fibers) == [] && batch != [])
    {
      needTickle := false;
      var i := 0;
      while i < |batch|
        invariant i <= |batch| && fibers == old(fibers) + batch[..i]
        invariant needTickle == (old(fibers) == [] && i > 0)
      {
        var told := ScheduleNoLock(batch[i]);
        needTickle := told || needTickle;
        i := i + 1;
      }
      assert batch[..i] == batch;
    }

    /** The queue and the active count are those of a reactor in state `s`. */
    ghost predicate Mirrors(s: State)
      reads this
    {
      fibers == s.queue && active == s.active
    }

    /** The scan under the queue lock, by worker `w`: a step of the reactor that takes the first entry neither
        pinned elsewhere nor running, or one that goes idle because there is none. */
    method TakeTask(w: nat, running: set<nat>, ghost s: State)
      returns (taken: Option<Entry>, tickleMe: bool, ghost t: State, ghost step: Step)
      requires Mirrors(s) && IsAt(s, w, Scanning) && forall f :: f in running <==> Executing(s, f)
      modifies this
      ensures Next(s, t, step) && Mirrors(t)
      ensures taken == None ==> step == NoTask(w)
      ensures taken.Some? ==> step.Take? && step.w == w && step.i < |s.queue| && taken.value == s.queue[step.i]
                              && IsAt(t, w, Holding(taken.value.task))
      ensures tickleMe <==> PassedPinned(s, w, if step.Take? then step.i else |s.queue|)
    {
      taken, tickleMe := None, false;
      var it := 0;
      while it < |fibers|
        invariant it <= |fibers| && Mirrors(s) && NoneEligible(s, w, it)
        invariant tickleMe <==> PassedPinned(s, w, it)
      {
        var e := fibers[it];
        if e.pin != None && e.pin != Some(w) {
          it := it + 1;
          tickleMe := true;
          continue;
        }
        if e.task.Fiber? && e.task.f in running {
          it := it + 1;
          continue;
        }
        taken := Some(e);
        fibers := fibers[..it] + fibers[it + 1..];
        active := active + 1;
        t, step := Took(s, w, it), Take(w, it);
        return;
      }
      t, step := Idled(s, w), NoTask(w);
    }

    /** Resume a fiber that was taken: it is queued again exactly when it yielded to be. On the reactor, in
        state `s` before, this is its swapping in and, from the state `back` in which it comes back, its
        leaving the worker, and for a fiber that yielded its going back to the queue. */
    method RunFiber(f: Fiber, end: Ending, ghost w: nat, ghost s: State, ghost back: State) returns (ghost t: State)
      requires f.status != EXEC && f.status != TERM && f.status != EXCEPT
      requires Mirrors(s) && Mirrors(back) && IsAt(s, w, Holding(Task.Fiber(f.id)))
      requires f.id in s.fibers && s.fibers[f.id].mode != Done
      requires end != Threw ==> ComesBack(back, w, f.id, end)
      modifies this, f
      ensures active == old(active) - 1 && f.status == Left(end)
      ensures fibers == old(fibers) + if end == YieldedReady then [Entry(Task.Fiber(f.id), None)] else []
      ensures Next(s, Begun(s, w, f.id), Begin(w, f.id)) && old(Mirrors(Begun(s, w, f.id)))
      ensures end != Threw ==> Leaving(back, w, f.id, end, t) && Mirrors(t)
    {
      hide Next, After, Begun, Leaving, ComesBack;
      f.Resume(end);
      active := active - 1;
      if f.status == READY {
        var told := ScheduleNoLock(Entry(Task.Fiber(f.id), None));
      } else {
        assert fibers + [] == fibers;
        if f.status != TERM && f.status != EXCEPT {
          f.status := HOLD;
        }
      }
      t := back;
      if end != Threw {
        AfterLeaves(back, w, f.id, end);
        t := After(back, w, f.id, end);
      }
    }

    /** Run a callback that was taken, on the worker's spare fiber or a new one. The fiber is kept as the
        next spare exactly when its callback returned; otherwise it belongs to the callback. On the reactor the
        spare, which has finished, is forgotten and begins anew. */
    method RunCallback(spare: Option<Fiber>, fresh_: Fiber, end: Ending, ghost w: nat, ghost s: State, ghost back: State)
      returns (kept: Option<Fiber>, used: Fiber, ghost t: State)
      requires fresh_.status == INIT && (spare.Some? ==> spare.value.Idle() && spare.value != fresh_)
      requires Mirrors(s) && Mirrors(back) && w in s.workers && s.workers[w].at.Holding? && s.workers[w].at.task.Call?
      requires if spare.Some? then IsSpare(s, spare.value.id) else fresh_.id !in s.fibers
      requires end != Threw ==> ComesBack(back, w, (if spare.Some? then spare.value else fresh_).id, end)
      modifies this, fresh_, if spare.Some? then {spare.value} else {}
      ensures used == (if spare.Some? then spare.value else fresh_)
      ensures active == old(active) - 1
      ensures fibers == old(fibers) + if end == YieldedReady then [Entry(Task.Fiber(used.id), None)] else []
      ensures kept == if end == Finished then Some(used) else None
      ensures kept.Some? ==> kept.value.status == INIT
      ensures kept == None ==> used.status == Left(end) && !used.Idle()
      ensures var u := Forget(s, used.id); Next(u, Begun(u, w, used.id), Begin(w, used.id)) && old(Mirrors(u))
      ensures end != Threw ==> Leaving(back, w, used.id, end, t) && Mirrors(t)
    {
      hide Next, After, Begun, Leaving, ComesBack;
      if spare.Some? {
        used := spare.value;
        used.Reset();
      } else {
        used := fresh_;
      }
      used.Resume(end);
      active := active - 1;
      assert fibers + [] == fibers;
      if used.status == READY {
        var told := ScheduleNoLock(Entry(Task.Fiber(used.id), None));
        kept := None;
      } else if used.status == EXCEPT || used.status == TERM {
        used.Reset();
        kept := Some(used);
      } else {
        used.status := HOLD;
        kept := None;
      }
      t := back;
      if end != Threw {
        AfterLeaves(back, w, used.id, end);
        t := After(back, w, used.id, end);
      }
    }
  }

  // ---- What the loop does to the reactor ----------------------------------------------------

  /** Among the first `n` entries is one that is pinned to another worker. */
  predicate PassedPinned(s: State, w: nat, n: nat)
    requires n <= |s.queue|
  {
    exists j :: 0 <= j < n && s.queue[j].pin != None && s.queue[j].pin != Some(w)
  }

  /** Entry `i` is in the hand of worker `w`. */
  function Took(s: State, w: nat, i: nat): (t: State)
    requires IsAt(s, w, Scanning) && i < |s.queue|
    ensures Eligible(s, w, s.queue[i]) && NoneEligible(s, w, i) ==> Next(s, t, Take(w, i))
    ensures IsAt(t, w, Holding(s.queue[i].task))
  {
    var e := s.queue[i];
    var t := Relocate(Move(s, w, Holding(e.task)), e.task, Taken(w));
    t.(queue := s.queue[..i] + s.queue[i + 1..], active := s.active + 1)
  }

  function Idled(s: State, w: nat): (t: State)
    requires IsAt(s, w, Scanning)
    ensures NoneEligible(s, w, |s.queue|) ==> Next(s, t, NoTask(w))
  {
    Move(s, w, if s.workers[w].idleDone then Exited else Polling)
  }

  /** Fiber `f` is swapped in: one that was taken, or one for a callback that was taken. */
  function Begun(s: State, w: nat, f: nat): (t: State)
    requires w in s.workers
    ensures t.queue == s.queue && t.active == s.active
    ensures s.workers[w].at == Holding(Task.Fiber(f)) && f in s.fibers && s.fibers[f].mode != Done ==>
              Next(s, t, Begin(w, f))
    ensures s.workers[w].at.Holding? && s.workers[w].at.task.Call? && f !in s.fibers ==> Next(s, t, Begin(w, f))
  {
    SetFiber(Move(s, w, Running(f)), f, Free(w), Nowhere)
  }

  /** The fiber runs on `w`, and is about to come back: parked only after it has registered itself. */
  predicate ComesBack(s: State, w: nat, f: nat, end: Ending) {
    && IsAt(s, w, Running(f)) && f in s.fibers
    && s.fibers[f].mode == if end == YieldedHold then Armed(w) else Free(w)
  }

  /** The fiber has yielded and is not in the queue yet. */
  function GivenUp(s: State, w: nat, f: nat): State
    requires w in s.workers
  {
    SetFiber(Move(s, w, Requeueing(f)), f, Yielded, Window(w)).(active := s.active - 1)
  }

  /** The state in which the fiber has left the worker, and if it yielded is in the queue again. */
  function After(s: State, w: nat, f: nat, end: Ending): State
    requires ComesBack(s, w, f, end)
  {
    match end
    case YieldedReady => Enqueue(Move(GivenUp(s, w, f), w, Scanning), Entry(Task.Fiber(f), None))
    case YieldedHold => SetFiber(Move(s, w, Scanning), f, Parked, s.fibers[f].place).(active := s.active - 1)
    case _ => SetFiber(Move(s, w, Scanning), f, Done, Nowhere).(active := s.active - 1)
  }

  /** Steps of worker `w` lead from `s` to `t`: its fiber parks or finishes, or yields and is queued again. */
  ghost predicate Leaving(s: State, w: nat, f: nat, end: Ending, t: State) {
    && IsAt(t, w, Scanning)
    && match end
       case YieldedReady => exists u :: Next(s, u, YieldReady(w)) && Next(u, t, Requeue(w))
       case YieldedHold => Next(s, t, YieldHold(w))
       case Finished => Next(s, t, Finish(w))
       case Threw => false
  }

  lemma AfterLeaves(s: State, w: nat, f: nat, end: Ending)
    requires ComesBack(s, w, f, end) && end != Threw
    ensures Leaving(s, w, f, end, After(s, w, f, end))
    ensures var t := After(s, w, f, end);
            && t.queue == s.queue + (if end == YieldedReady then [Entry(Task.Fiber(f), None)] else [])
            && t.active == s.active - 1
  {
    assert s.queue + [] == s.queue;
    if end == YieldedReady {
      YieldsAndQueues(s, w, f);
      hide Next;
    }
  }

  lemma YieldsAndQueues(s: State, w: nat, f: nat)
    requires ComesBack(s, w, f, YieldedReady)
    ensures Next(s, GivenUp(s, w, f), YieldReady(w))
    ensures Next(GivenUp(s, w, f), After(s, w, f, YieldedReady), Requeue(w))
  {
    assert GivenUp(s, w, f).workers[w].at == Requeueing(f);
    hide Enqueue;
  }

  /** A spare fiber: its callback has run to its end. */
  predicate IsSpare(s: State, f: nat) {
    f in s.fibers && s.fibers[f] == FiberRec(Done, Nowhere)
  }

  function Forget(s: State, f: nat): State {
    s.(fibers := s.fibers - {f})
  }

  /** Reusing a spare fiber is sound: forgetting one that has finished keeps all that holds in reachable states. */
  lemma ForgetKeepsInv(s: State, f: nat)
    requires Inv(s) && IsSpare(s, f)
    ensures Inv(Forget(s, f))
  {
    hide Book, Busy, Waiting, Queueing;
    forall g: nat
      ensures Tracked(Forget(s, f), g) && Consistent(Forget(s, f), g)
    {
      assert Tracked(s, g) && Consistent(s, g);
    }
  }
}
