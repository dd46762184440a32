/** The wait loop of `hook_io` and its timeout callbacks: a fiber that makes one call after another on the
    same descriptor and event, and everything that can run beside it, in any interleaving. */
module HookWait {
  import opened Options

  /** What a call returns: what the hooked function itself returned, that the event could not be registered,
      or that the time is up. */
  datatype Result = Own | NotRegistered | TimedOut

  /** Where the call stands; `id` is the timer of this round, if the socket has a timeout. */
  datatype Stage =
    | Trying
    | Armed(id: Option<nat>)
    | Waiting(id: Option<nat>)
    | Woken(id: Option<nat>)
    | Checking
    | Returned(result: Result)

  datatype Timer = Timer(call: nat, deadline: nat)

  /** A callback that was taken out of the timer set: not yet run, or between setting the flag and
      cancelling the event. */
  datatype Callback = Callback(call: nat, cancelling: bool)

  /** `cancelled` is the flag of the current call; `slot` whether the fiber is registered for the event,
      `ready` whether it is scheduled to go on; `since` when this call first armed a timer. */
  datatype State = State(
    clock: nat, call: nat, timeout: Option<nat>, since: Option<nat>, stage: Stage,
    cancelled: bool, slot: bool, ready: bool,
    timers: map<nat, Timer>, callbacks: map<nat, Callback>, nextId: nat)

  datatype Step =
    | Tick(d: nat)
    | Succeed
    | WouldBlock
    | Register(ok: bool)
    | Notify
    | Resume
    | StopTimer
    | Check
    | NextCall(timeout: Option<nat>)
    | Expire(i: nat)
    | RunCallback(i: nat)
    | CancelEvent(i: nat)

  function Wake(s: State): State {
    if s.slot then s.(slot := false, ready := true) else s
  }

  function Stop(s: State, id: Option<nat>): State {
    if id.Some? then s.(timers := s.timers - {id.value}) else s
  }

  /** The callback finds its call still waiting for it: the flag exists and is not set. */
  predicate Live(s: State, i: nat) {
    i in s.callbacks && s.callbacks[i].call == s.call && !s.stage.Returned? && !s.cancelled
  }

  predicate Next(s: State, t: State, step: Step) {
    match step
    case Tick(d) => t == s.(clock := s.clock + d)
    case Succeed => s.stage.Trying? && t == s.(stage := Returned(Own))
    case WouldBlock =>
      && s.stage.Trying?
      && t == if s.timeout.None? then s.(stage := Armed(None))
              else s.(stage := Armed(Some(s.nextId)), nextId := s.nextId + 1,
                      timers := s.timers[s.nextId := Timer(s.call, s.clock + s.timeout.value)],
                      since := if s.since.None? then Some(s.clock) else s.since)
    case Register(ok) =>
      && s.stage.Armed?
      && t == if ok then s.(stage := Waiting(s.stage.id), slot := true)
              else Stop(s, s.stage.id).(stage := Returned(NotRegistered))
    // readiness, a close, or any other cancellation of the event
    case Notify => s.slot && t == Wake(s)
    case Resume => s.stage.Waiting? && s.ready && t == s.(ready := false, stage := Woken(s.stage.id))
    case StopTimer => s.stage.Woken? && t == Stop(s, s.stage.id).(stage := Checking)
    case Check => s.stage.Checking? && t == s.(stage := if s.cancelled then Returned(TimedOut) else Trying)
    case NextCall(timeout) =>
      s.stage.Returned?
      && t == s.(call := s.call + 1, timeout := timeout, since := None, stage := Trying, cancelled := false)
    case Expire(i) =>
      i in s.timers && s.timers[i].deadline <= s.clock
      && t == s.(timers := s.timers - {i}, callbacks := s.callbacks[i := Callback(s.timers[i].call, false)])
    case RunCallback(i) =>
      i in s.callbacks && !s.callbacks[i].cancelling
      && t == if Live(s, i)
              then s.(cancelled := true, callbacks := s.callbacks[i := Callback(s.call, true)])
              else s.(callbacks := s.callbacks - {i})
    case CancelEvent(i) =>
      i in s.callbacks && s.callbacks[i].cancelling && t == Wake(s).(callbacks := s.callbacks - {i})
  }

  predicate Start(s: State) {
    s.call == 0 && s.since == None && s.stage == Trying && !s.cancelled && !s.slot && !s.ready
    && s.timers == map[] && s.callbacks == map[]
  }

  // ---- Invariant ----------------------------------------------------------------------------

  function TimerOf(stage: Stage): Option<nat> {
    match stage
    case Armed(id) => id
    case Waiting(id) => id
    case Woken(id) => id
    case _ => None
  }

  /** This call has been waiting for at least its timeout, counted from its first registration. */
  predicate Overdue(s: State) {
    s.timeout.Some? && s.since.Some? && s.since.value + s.timeout.value <= s.clock
  }

  ghost predicate Inv(s: State) {
    && (forall i :: i in s.timers ==>
          TimerOf(s.stage) == Some(i) && s.timers[i].call == s.call
          && s.timeout.Some? && s.since.Some? && s.since.value + s.timeout.value <= s.timers[i].deadline)
    && (forall i :: i in s.callbacks ==>
          s.callbacks[i].call <= s.call && (s.callbacks[i].call == s.call ==> Overdue(s)))
    && (forall i :: i in s.timers ==> i !in s.callbacks)
    && (forall i :: i in s.timers || i in s.callbacks ==> i < s.nextId)
    && (s.since.Some? ==> s.since.value <= s.clock)
    && (s.cancelled ==> Overdue(s))
    && (s.slot || s.ready <==> s.stage.Waiting?) && !(s.slot && s.ready)
    && (s.stage == Returned(TimedOut) ==> Overdue(s))
    && (TimerOf(s.stage).Some? ==> s.timeout.Some? && TimerOf(s.stage).value < s.nextId)
    // the timer of this round is set, or its callback is on its way, or has set the flag
    && (TimerOf(s.stage).Some? && !s.cancelled ==>
          var i := TimerOf(s.stage).value;
          i in s.timers || (i in s.callbacks && s.callbacks[i] == Callback(s.call, false)))
  }

  predicate Tries(step: Step) {
    step.Succeed? || step.WouldBlock? || step.Register?
  }

  predicate ComesBack(step: Step) {
    step.Resume? || step.StopTimer? || step.Check? || step.NextCall?
  }

  lemma InvNextTries(s: State, t: State, step: Step)
    requires Inv(s) && Next(s, t, step) && Tries(step)
    ensures Inv(t)
  {
  }

  lemma InvNextBack(s: State, t: State, step: Step)
    requires Inv(s) && Next(s, t, step) && ComesBack(step)
    ensures Inv(t)
  {
  }

  lemma InvNextTime(s: State, t: State, step: Step)
    requires Inv(s) && Next(s, t, step) && (step.Tick? || step.Notify? || step.Expire?)
    ensures Inv(t)
  {
  }

  lemma InvNextCallback(s: State, t: State, step: Step)
    requires Inv(s) && Next(s, t, step) && (step.RunCallback? || step.CancelEvent?)
    ensures Inv(t)
  {
  }

  lemma InvNext(s: State, t: State, step: Step)
    requires Inv(s) && Next(s, t, step)
    ensures Inv(t)
  {
    hide Inv, Next;
    if Tries(step) {
      InvNextTries(s, t, step);
    } else if ComesBack(step) {
      InvNextBack(s, t, step);
    } else if step.RunCallback? || step.CancelEvent? {
      InvNextCallback(s, t, step);
    } else {
      InvNextTime(s, t, step);
    }
  }

  ghost predicate Behavior(run: seq<State>, steps: seq<Step>) {
    && |run| == |steps| + 1 && Start(run[0])
    && forall i :: 0 <= i < |steps| ==> Next(run[i], run[i + 1], steps[i])
  }

  lemma {:induction false} InvHolds(run: seq<State>, steps: seq<Step>, n: nat)
    requires Behavior(run, steps) && n < |run|
    ensures Inv(run[n])
  {
    hide Next;
    if n > 0 {
      InvHolds(run, steps, n - 1);
      InvNext(run[n - 1], run[n], steps[n - 1]);
    }
  }

  // ---- What every run guarantees ------------------------------------------------------------

  /** A call reports a timeout only when its socket has one and that much time has passed since the call
      first waited, whatever callbacks of earlier calls and rounds still run; it never leaves a timer
      behind; and while it waits it is either registered or scheduled, not both. */
  lemma TimeoutIsDue(run: seq<State>, steps: seq<Step>, n: nat)
    requires Behavior(run, steps) && n < |run|
    ensures run[n].stage == Returned(TimedOut) ==>
              run[n].timeout.Some? && run[n].since.Some? && run[n].since.value + run[n].timeout.value <= run[n].clock
    ensures run[n].stage.Returned? || run[n].stage.Trying? || run[n].stage.Checking? ==> run[n].timers == map[]
    ensures run[n].stage.Waiting? ==> run[n].slot != run[n].ready
  {
    InvHolds(run, steps, n);
  }

  /** The fiber waits with a timeout, and is not yet scheduled. */
  predicate WaitsWithTimeout(s: State) {
    s.stage.Waiting? && s.stage.id.Some? && s.slot
  }

  /** A callback that has set a flag and is about to cancel the event. */
  predicate Cancelling(s: State, i: nat) {
    i in s.callbacks && s.callbacks[i].cancelling
  }

  /** The flag of the call is already set, and the callback that set it has come and gone. */
  ghost predicate Spent(s: State) {
    s.cancelled && forall i :: i in s.callbacks ==> !Cancelling(s, i)
  }

  /** Then no callback wakes the fiber any more: only a notification of the event does. */
  lemma SpentStays(s: State, t: State, step: Step)
    requires WaitsWithTimeout(s) && Spent(s) && Inv(s) && Next(s, t, step) && step != Notify
    ensures WaitsWithTimeout(t) && Spent(t)
  {
  }

  ghost predicate Steps(run: seq<State>, steps: seq<Step>) {
    && |run| == |steps| + 1
    && forall i :: 0 <= i < |steps| ==> Next(run[i], run[i + 1], steps[i])
  }

  /** A continuation in which the event is never notified, and the fiber is scheduled in the end. */
  ghost predicate WakesByItself(run: seq<State>, steps: seq<Step>, s: State) {
    Steps(run, steps) && run[0] == s && (forall i :: 0 <= i < |steps| ==> steps[i] != Notify) && run[|steps|].ready
  }

  lemma {:induction false} SpentForever(run: seq<State>, steps: seq<Step>, n: nat)
    requires Steps(run, steps) && WaitsWithTimeout(run[0]) && Spent(run[0]) && Inv(run[0]) && n < |run|
    requires forall i :: 0 <= i < |steps| ==> steps[i] != Notify
    ensures WaitsWithTimeout(run[n]) && Spent(run[n]) && Inv(run[n])
  {
    if n > 0 {
      SpentForever(run, steps, n - 1);
      SpentStays(run[n - 1], run[n], steps[n - 1]);
      InvNext(run[n - 1], run[n], steps[n - 1]);
    }
  }

  /** A callback that is cancelling wakes the fiber at once. */
  lemma CancelWakes(s: State, i: nat) returns (run: seq<State>, steps: seq<Step>)
    requires WaitsWithTimeout(s) && Cancelling(s, i)
    ensures WakesByItself(run, steps, s)
  {
    run, steps := [s, Wake(s).(callbacks := s.callbacks - {i})], [CancelEvent(i)];
    assert Next(run[0], run[1], steps[0]);
  }

  lemma Prepend(s: State, t: State, step: Step, run: seq<State>, steps: seq<Step>)
    requires Next(s, t, step) && step != Notify && WakesByItself(run, steps, t)
    ensures WakesByItself([s] + run, [step] + steps, s)
  {
  }

  /** A callback that finds the flag unset sets it, and goes on to wake the fiber. */
  lemma CallbackWakes(s: State, i: nat) returns (run: seq<State>, steps: seq<Step>)
    requires WaitsWithTimeout(s) && Live(s, i) && !Cancelling(s, i)
    ensures WakesByItself(run, steps, s)
  {
    var t := s.(cancelled := true, callbacks := s.callbacks[i := Callback(s.call, true)]);
    assert Next(s, t, RunCallback(i));
    run, steps := CancelWakes(t, i);
    Prepend(s, t, RunCallback(i), run, steps);
    run, steps := [s] + run, [RunCallback(i)] + steps;
  }

  /** An armed timer expires in time. */
  lemma TimerWakes(s: State, i: nat) returns (run: seq<State>, steps: seq<Step>)
    requires WaitsWithTimeout(s) && i in s.timers && s.timers[i].call == s.call && !s.cancelled
    ensures WakesByItself(run, steps, s)
  {
    var t := s.(clock := s.clock + s.timers[i].deadline);
    var u := t.(timers := t.timers - {i}, callbacks := t.callbacks[i := Callback(t.timers[i].call, false)]);
    run, steps := CallbackWakes(u, i);
    Prepend(t, u, Expire(i), run, steps);
    Prepend(s, t, Tick(s.timers[i].deadline), [t] + run, [Expire(i)] + steps);
    run, steps := [s] + ([t] + run), [Tick(s.timers[i].deadline)] + ([Expire(i)] + steps);
  }

  /** A fiber that waits with a timeout can be woken without a notification of the event just when the flag
      of its call was not already set before, by a callback of an earlier round that is done. */
  lemma TimeoutWakesIff(s: State)
    requires Inv(s) && WaitsWithTimeout(s)
    ensures (exists run, steps :: WakesByItself(run, steps, s)) <==> !Spent(s)
  {
    if Spent(s) {
      forall run, steps | WakesByItself(run, steps, s)
        ensures false
      {
        SpentForever(run, steps, |steps|);
      }
    } else if s.cancelled {
      var i :| i in s.callbacks && Cancelling(s, i);
      var run, steps := CancelWakes(s, i);
    } else {
      var i := s.stage.id.value;
      if i in s.timers {
        var run, steps := TimerWakes(s, i);
      } else {
        var run, steps := CallbackWakes(s, i);
      }
    }
  }

  // ---- How a call ends ----------------------------------------------------------------------

  /** A timer callback of the current call runs, and the call has not returned. */
  predicate Fires(s: State, step: Step) {
    step.RunCallback? && step.i in s.callbacks && s.callbacks[step.i].call == s.call && !s.stage.Returned?
  }

  /** One has run at some step before the `n`-th, with no new call since. */
  ghost predicate Fired(run: seq<State>, steps: seq<Step>, n: nat)
    requires n <= |steps| < |run|
  {
    exists k :: 0 <= k < n && Fires(run[k], steps[k]) && forall j :: k <= j < n ==> !steps[j].NextCall?
  }

  lemma FlagNext(s: State, t: State, step: Step)
    requires Inv(s) && Next(s, t, step)
    ensures t.cancelled <==> !step.NextCall? && (s.cancelled || Fires(s, step))
  {
  }

  lemma FiredNext(run: seq<State>, steps: seq<Step>, n: nat)
    requires 0 < n <= |steps| < |run|
    ensures Fired(run, steps, n)
            <==> !steps[n - 1].NextCall? && (Fired(run, steps, n - 1) || Fires(run[n - 1], steps[n - 1]))
  {
    hide Fires;
    if !steps[n - 1].NextCall? && Fired(run, steps, n - 1) {
      var k :| 0 <= k < n - 1 && Fires(run[k], steps[k]) && forall j :: k <= j < n - 1 ==> !steps[j].NextCall?;
      assert forall j :: k <= j < n ==> !steps[j].NextCall?;
    }
  }

  /** The flag of the call is set exactly if a callback of this call has run. */
  lemma {:induction false} FlagIsHistory(run: seq<State>, steps: seq<Step>, n: nat)
    requires Behavior(run, steps) && n <= |steps| < |run|
    ensures run[n].cancelled <==> Fired(run, steps, n)
  {
    hide Next, Inv, Fires;
    if n > 0 {
      FlagIsHistory(run, steps, n - 1);
      InvHolds(run, steps, n - 1);
      FlagNext(run[n - 1], run[n], steps[n - 1]);
      FiredNext(run, steps, n);
    }
  }

  /** How a call goes on and what it returns, over every run: back from a wait it reports the timeout if a
      callback of this call has run since the call was made, and tries again otherwise; it returns what the
      hooked function returned when that did not block, and that it could not register when that failed;
      and it returns in no other way. */
  lemma CallReturns(run: seq<State>, steps: seq<Step>, n: nat)
    requires Behavior(run, steps) && n < |steps| < |run|
    ensures steps[n] == Check ==> run[n + 1].stage == if Fired(run, steps, n) then Returned(TimedOut) else Trying
    ensures steps[n] == Succeed ==> run[n + 1].stage == Returned(Own)
    ensures steps[n] == Register(false) ==> run[n + 1].stage == Returned(NotRegistered)
    ensures run[n + 1].stage.Returned? && !run[n].stage.Returned? ==> steps[n] in {Check, Succeed, Register(false)}
  {
    FlagIsHistory(run, steps, n);
    assert Next(run[n], run[n + 1], steps[n]);
    hide Fired;
  }

  /** The rest of a wait, once the fiber is scheduled. */
  const GO_ON: seq<Step> := [Resume, StopTimer, Check]

  /** A fiber that waits for the event can always be notified, and then goes on: it tries again, unless its
      time is up. */
  lemma NotifiedGoesOn(s: State) returns (run: seq<State>)
    requires Inv(s) && s.stage.Waiting? && s.slot
    ensures Steps(run, [Notify] + GO_ON) && run[0] == s
    ensures run[4].stage == if s.cancelled then Returned(TimedOut) else Trying
  {
    var rest := GoesOn(Wake(s));
    run := [s] + rest;
    assert Next(s, Wake(s), Notify);
    hide Next;
    forall k | 0 <= k < 4
      ensures Next(run[k], run[k + 1], ([Notify] + GO_ON)[k])
    {
      if k >= 1 {
        assert Next(rest[k - 1], rest[k], GO_ON[k - 1]);
      }
    }
  }

  lemma GoesOn(s: State) returns (run: seq<State>)
    requires s.stage.Waiting? && s.ready
    ensures Steps(run, GO_ON) && |run| == 4 && run[0] == s
    ensures run[3].stage == if s.cancelled then Returned(TimedOut) else Trying
    ensures run[3].clock == s.clock && run[3].call == s.call
  {
    var t := s.(ready := false, stage := Woken(s.stage.id));
    var u := Stop(t, t.stage.id).(stage := Checking);
    run := [s, t, u, u.(stage := if s.cancelled then Returned(TimedOut) else Trying)];
    assert Next(s, t, Resume) && Next(t, u, StopTimer);
  }

  /** On a socket that stays silent a call times out, and can do so at the very moment its time is up. */
  lemma SilentTimesOut(s: State) returns (run: seq<State>, steps: seq<Step>)
    requires Start(s) && s.timeout.Some?
    ensures Behavior(run, steps) && run[0] == s && forall k :: 0 <= k < |steps| ==> steps[k] != Notify
    ensures var t := run[|steps|];
            t.stage == Returned(TimedOut) && t.call == s.call && t.clock == s.clock + s.timeout.value
  {
    var i, d := s.nextId, s.timeout.value;
    var s1 := s.(stage := Armed(Some(i)), nextId := i + 1, timers := map[i := Timer(s.call, s.clock + d)],
                 since := Some(s.clock));
    var s2 := s1.(stage := Waiting(Some(i)), slot := true);
    var s3 := s2.(clock := s.clock + d);
    var s4 := s3.(timers := map[], callbacks := map[i := Callback(s.call, false)]);
    var s5 := s4.(cancelled := true, callbacks := map[i := Callback(s.call, true)]);
    var s6 := s5.(slot := false, ready := true, callbacks := map[]);
    assert Next(s, s1, WouldBlock) && Next(s1, s2, Register(true)) && Next(s2, s3, Tick(d));
    assert s3.timers - {i} == map[] && Next(s3, s4, Expire(i)) && Next(s4, s5, RunCallback(i));
    assert s5.callbacks - {i} == map[] && Next(s5, s6, CancelEvent(i));
    var rest := GoesOn(s6);
    run := [s, s1, s2, s3, s4, s5] + rest;
    steps := [WouldBlock, Register(true), Tick(d), Expire(i), RunCallback(i), CancelEvent(i)] + GO_ON;
    hide Next;
    forall k | 0 <= k < |steps|
      ensures Next(run[k], run[k + 1], steps[k])
    {
      if k >= 6 {
        assert Next(rest[k - 6], rest[k - 5], GO_ON[k - 6]);
      }
    }
  }

  /** A call that tries can succeed, and then another call can follow, with its own timeout and a clear flag. */
  lemma SucceedsAndFollows(s: State, timeout: Option<nat>) returns (run: seq<State>)
    requires s.stage.Trying?
    ensures Steps(run, [Succeed, NextCall(timeout)]) && run[0] == s && run[1].stage == Returned(Own)
    ensures var t := run[2];
            && t.stage == Trying && t.call == s.call + 1 && t.timeout == timeout && !t.cancelled && t.since == None
            && t.clock == s.clock && t.timers == s.timers && t.callbacks == s.callbacks
  {
    var t := s.(stage := Returned(Own));
    run := [s, t, t.(call := t.call + 1, timeout := timeout, since := None, stage := Trying, cancelled := false)];
    assert Next(s, t, Succeed);
  }

  // ---- The lost timeout is reachable --------------------------------------------------------

  /** The first round's timer expires while the fiber is being woken by the event; its callback runs between
      the fiber's look at the flag and its next registration. */
  const SCENE: seq<Step> := [
    WouldBlock, Register(true), Tick(1), Expire(0), Notify, Resume, StopTimer, Check,
    RunCallback(0), CancelEvent(0), WouldBlock, Register(true)]

  function Scene(n: nat): State {
    var timer := map[0 := Timer(0, 1)];
    var pending := map[0 := Callback(0, false)];
    var s := State(0, 0, Some(1), Some(0), Trying, false, false, false, map[], map[], 1);
    var late := s.(clock := 1);
    if n == 0 then s.(since := None, nextId := 0)
    else if n == 1 then s.(stage := Armed(Some(0)), timers := timer)
    else if n == 2 then s.(stage := Waiting(Some(0)), timers := timer, slot := true)
    else if n == 3 then late.(stage := Waiting(Some(0)), timers := timer, slot := true)
    else if n == 4 then late.(stage := Waiting(Some(0)), callbacks := pending, slot := true)
    else if n == 5 then late.(stage := Waiting(Some(0)), callbacks := pending, ready := true)
    else if n == 6 then late.(stage := Woken(Some(0)), callbacks := pending)
    else if n == 7 then late.(stage := Checking, callbacks := pending)
    else if n == 8 then late.(callbacks := pending)
    else if n == 9 then late.(cancelled := true, callbacks := map[0 := Callback(0, true)])
    else if n == 10 then late.(cancelled := true)
    else if n == 11 then late.(cancelled := true, stage := Armed(Some(1)), timers := map[1 := Timer(0, 2)], nextId := 2)
    else late.(cancelled := true, stage := Waiting(Some(1)), timers := map[1 := Timer(0, 2)], nextId := 2, slot := true)
  }

  lemma SceneSteps(n: nat)
    requires n < |SCENE|
    ensures Next(Scene(n), Scene(n + 1), SCENE[n])
  {
    if n == 3 {
      assert Scene(3).timers - {0} == map[];
    } else if n == 7 {
      assert Scene(7).timers == map[];
    } else if n == 6 {
      assert Scene(6).timers - {0} == map[];
    } else if n == 9 {
      assert Scene(9).callbacks - {0} == map[];
    }
  }

  /** So a fiber can come to wait with its timer set and yet never be told that its time is up. */
  lemma TimeoutCanBeLost() returns (run: seq<State>, steps: seq<Step>)
    ensures Behavior(run, steps) && WaitsWithTimeout(run[|steps|]) && Spent(run[|steps|])
    ensures run[|steps|].timers != map[]
  {
    run := seq(13, n requires 0 <= n => Scene(n));
    steps := SCENE;
    assert |steps| == 12 && run[12] == Scene(12) && Start(run[0]);
    assert 1 in Scene(12).timers;
    hide Next, Scene, SCENE, Start;
    forall n | 0 <= n < |steps|
      ensures Next(run[n], run[n + 1], steps[n])
    {
      SceneSteps(n);
    }
  }
}
