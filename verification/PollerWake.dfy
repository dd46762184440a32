/** The wake-up protocol between the threads that arm timers and the one thread that sleeps in
    `epoll_wait`: timers are inserted under a lock, the wake byte is written after it is released. */
module PollerWake {
  import opened Options

  const MAX_WAIT := 3000
  const INT_RANGE := 0x1_0000_0000

  /** Where the poller is in `IOManager::idle`. */
  datatype Phase =
    | Away
    | Entered
    | Cleared
    | Asleep(used: Option<nat>, since: nat, until: Option<nat>)
    | Woken

  /** `timers` maps armed timers to their deadlines; `notifying` counts threads between setting
      `m_tickle` and the call of `tickle`; `pipe` is whether a wake byte is waiting. */
  datatype State = State(timers: map<nat, nat>, tickle: bool, notifying: nat, pipe: bool, phase: Phase, now: nat)

  ghost predicate Earlier(timers: map<nat, nat>, a: nat, b: nat)
    requires a in timers && b in timers
  {
    timers[a] < timers[b] || (timers[a] == timers[b] && a < b)
  }

  ghost predicate IsFirst(timers: map<nat, nat>, id: nat) {
    id in timers && forall other :: other in timers && other != id ==> Earlier(timers, id, other)
  }

  /** `d` is the earliest deadline, or there is none. */
  ghost predicate IsEarliest(timers: map<nat, nat>, d: Option<nat>) {
    match d
    case None => timers == map[]
    case Some(v) => (exists id :: id in timers && timers[id] == v) && forall id :: id in timers ==> timers[id] >= v
  }

  /** A 64-bit number read as a signed 32-bit one. */
  function AsInt(w: nat): int {
    var low := w % INT_RANGE;
    if low < INT_RANGE / 2 then low else low - INT_RANGE
  }

  /** The timeout passed to `epoll_wait` for the answer of `getNextTime`; below zero means no timeout. */
  function Timeout(wait: Option<nat>): int {
    match wait
    case None => MAX_WAIT
    case Some(w) => if AsInt(w) > MAX_WAIT then MAX_WAIT else AsInt(w)
  }

  function Wait(d: Option<nat>, now: nat): Option<nat> {
    match d
    case None => None
    case Some(v) => Some(if now >= v then 0 else v - now)
  }

  ghost predicate Init(s: State) {
    s.timers == map[] && !s.tickle && s.notifying == 0 && !s.pipe && s.phase == Away
  }

  datatype Step =
    | Arm(id: nat, deadline: nat)
    | Disarm(id: nat)
    | Notify
    | Enter
    | Clear
    | Measure
    | Wake
    | Retry
    | Sweep(gone: set<nat>, rearmed: map<nat, nat>)
    | Drain
    | Leave
    | Tick

  /** One critical section of one thread. */
  ghost predicate Next(s: State, t: State, step: Step) {
    match step
    // addTimer, refresh and reset, up to the release of the lock
    case Arm(id, deadline) =>
      var timers := s.timers[id := deadline];
      var wake := IsFirst(timers, id) && !s.tickle;
      t == s.(timers := timers, tickle := s.tickle || wake, notifying := s.notifying + if wake then 1 else 0)
    case Disarm(id) => t == s.(timers := s.timers - {id})
    // onTimerInsertedAtFront: writes only if a thread is idle
    case Notify => s.notifying > 0 && t == s.(notifying := s.notifying - 1, pipe := s.pipe || s.phase != Away)
    case Enter => s.phase == Away && t == s.(phase := Entered)
    // the two locked parts of getNextTime
    case Clear => s.phase == Entered && t == s.(phase := Cleared, tickle := false)
    case Measure =>
      && s.phase == Cleared && t.phase.Asleep? && IsEarliest(s.timers, t.phase.used) && t.phase.since == s.now
      && var timeout := Timeout(Wait(t.phase.used, s.now));
      t == s.(phase := Asleep(t.phase.used, s.now, if timeout < 0 then None else Some(s.now + timeout)))
    case Wake => s.phase.Asleep? && t == s.(phase := Woken)
    // epoll_wait was interrupted
    case Retry => s.phase.Asleep? && t == s.(phase := Entered)
    case Sweep(gone, rearmed) => s.phase == Woken && t == s.(timers := (s.timers - gone) + rearmed)
    case Drain => s.phase == Woken && t == s.(pipe := false)
    case Leave => s.phase == Woken && t == s.(phase := Away)
    case Tick => t.now >= s.now && t == s.(now := t.now)
  }

  /** An insertion at the front since the flag was cleared has its byte written or on the way, and
      every deadline that the sleep does not count with was such an insertion or came behind one. */
  ghost predicate Inv(s: State) {
    && ((s.phase == Cleared || s.phase.Asleep?) && s.tickle ==> s.pipe || s.notifying > 0)
    && (s.phase.Asleep? ==> s.tickle || NotBefore(s.timers, s.phase.used))
    && (s.phase.Asleep? ==> s.phase.since <= s.now && IsUntil(s.phase))
  }

  /** No armed timer is due before `used`. */
  ghost predicate NotBefore(timers: map<nat, nat>, used: Option<nat>) {
    forall id :: id in timers ==> used.Some? && timers[id] >= used.value
  }

  ghost predicate IsUntil(p: Phase)
    requires p.Asleep?
  {
    var timeout := Timeout(Wait(p.used, p.since));
    p.until == if timeout < 0 then None else Some(p.since + timeout)
  }

  lemma InvInit(s: State)
    requires Init(s)
    ensures Inv(s)
  {
  }

  lemma InvNext(s: State, t: State, step: Step)
    requires Inv(s) && Next(s, t, step)
    ensures Inv(t)
  {
    match step
    case Arm(id, deadline) =>
      if s.phase.Asleep? && !t.tickle {
        ArmBehind(s.timers, id, deadline, s.phase.used);
      }
    case _ =>
  }

  /** A timer that does not become the first is not due before the deadline in use. */
  lemma ArmBehind(timers: map<nat, nat>, id: nat, deadline: nat, used: Option<nat>)
    requires NotBefore(timers, used) && !IsFirst(timers[id := deadline], id)
    ensures NotBefore(timers[id := deadline], used)
  {
    var now := timers[id := deadline];
    var other :| other in now && other != id && !Earlier(now, id, other);
    assert now[other] == timers[other];
  }

  /** A run from the start, with the step taken between each state and the next. */
  ghost predicate Behavior(run: seq<State>, steps: seq<Step>) {
    && |run| == |steps| + 1 && Init(run[0])
    && forall i :: 0 <= i < |steps| ==> Next(run[i], run[i + 1], steps[i])
  }

  lemma {:induction false} InvHolds(run: seq<State>, steps: seq<Step>, n: nat)
    requires Behavior(run, steps) && n < |run|
    ensures Inv(run[n])
  {
    if n == 0 {
      InvInit(run[0]);
    } else {
      InvHolds(run, steps, n - 1);
      InvNext(run[n - 1], run[n], steps[n - 1]);
    }
  }

  /** No wake-up is lost: whenever the poller sleeps and some timer is due before the deadline it
      counted with, a wake byte is waiting or a thread is about to write it. */
  lemma NoLostWakeUp(run: seq<State>, steps: seq<Step>, n: nat, id: nat)
    requires Behavior(run, steps) && n < |run|
    requires run[n].phase.Asleep? && id in run[n].timers
    requires run[n].phase.used == None || run[n].timers[id] < run[n].phase.used.value
    ensures run[n].pipe || run[n].notifying > 0
  {
    InvHolds(run, steps, n);
  }

  // ---- Nobody is woken without need ---------------------------------------------------------

  /** The step sets the flag, and so owes the poller a byte: it arms a timer that comes before all others, by
      deadline and then by address, while nobody has been told since the poller last cleared the flag. */
  ghost predicate Tells(s: State, step: Step) {
    && step.Arm? && !s.tickle
    && forall other :: other in s.timers && other != step.id ==>
         step.deadline < s.timers[other] || (step.deadline == s.timers[other] && step.id < other)
  }

  ghost function Told(run: seq<State>, steps: seq<Step>, n: nat): nat
    requires n <= |steps| < |run|
  {
    if n == 0 then 0 else Told(run, steps, n - 1) + if Tells(run[n - 1], steps[n - 1]) then 1 else 0
  }

  ghost function Times(steps: seq<Step>, step: Step, n: nat): nat
    requires n <= |steps|
  {
    if n == 0 then 0 else Times(steps, step, n - 1) + if steps[n - 1] == step then 1 else 0
  }

  lemma TellNext(s: State, t: State, step: Step)
    requires Next(s, t, step)
    ensures t.notifying == s.notifying + (if Tells(s, step) then 1 else 0) - (if step == Notify then 1 else 0)
    ensures t.tickle <==> Tells(s, step) || (s.tickle && step != Clear)
    ensures Tells(s, step) ==> !s.tickle && step != Clear
  {
    if step.Arm? {
      var timers := s.timers[step.id := step.deadline];
      assert forall other :: other in timers && other != step.id ==> timers[other] == s.timers[other];
      assert Tells(s, step) <==> IsFirst(timers, step.id) && !s.tickle;
    }
  }

  /** Over every run: each time the flag is set one byte is written or still owed, and the flag is set at most
      once for each time the poller clears it, and once before. */
  lemma {:induction false} ToldOncePerRound(run: seq<State>, steps: seq<Step>, n: nat)
    requires Behavior(run, steps) && n <= |steps| < |run|
    ensures Told(run, steps, n) == Times(steps, Notify, n) + run[n].notifying
    ensures Told(run, steps, n) <= Times(steps, Clear, n) + if run[n].tickle then 1 else 0
  {
    hide Next, Tells;
    if n > 0 {
      ToldOncePerRound(run, steps, n - 1);
      TellNext(run[n - 1], run[n], steps[n - 1]);
    }
  }

  // ---- How long the poller sleeps -----------------------------------------------------------

  lemma {:induction false} EarliestExists(timers: map<nat, nat>) returns (d: Option<nat>)
    ensures IsEarliest(timers, d)
    decreases |timers|
  {
    if timers == map[] {
      d := None;
    } else {
      var id :| id in timers;
      var rest := timers - {id};
      assert rest.Keys == timers.Keys - {id};
      var e := EarliestExists(rest);
      d := if e.Some? && e.value <= timers[id] then e else Some(timers[id]);
      if e.Some? {
        var other :| other in rest && rest[other] == e.value;
        assert other in timers && timers[other] == e.value;
      }
      assert forall other :: other in timers ==> other == id || other in rest;
    }
  }

  /** A poller that has cleared the flag goes to sleep until the earliest deadline, if there is one, but for three
      seconds at the most; a delay that a signed 32-bit number cannot hold is cut to one. */
  lemma FallsAsleep(s: State) returns (t: State)
    requires s.phase == Cleared
    ensures Next(s, t, Measure) && t.phase.Asleep? && t.phase.since == s.now
    ensures t.phase.used == None <==> s.timers == map[]
    ensures t.phase.used.Some? ==>
              (exists id :: id in s.timers && s.timers[id] == t.phase.used.value)
              && (forall id :: id in s.timers ==> t.phase.used.value <= s.timers[id])
    ensures s.timers == map[] ==> t.phase.until == Some(s.now + 3000)
    ensures t.phase.used.Some? && t.phase.used.value <= s.now ==> t.phase.until == Some(s.now)
    ensures t.phase.used.Some? && s.now < t.phase.used.value < s.now + 0x8000_0000 ==>
              t.phase.until == Some(if t.phase.used.value < s.now + 3000 then t.phase.used.value else s.now + 3000)
  {
    var d := EarliestExists(s.timers);
    var timeout := Timeout(Wait(d, s.now));
    t := s.(phase := Asleep(d, s.now, if timeout < 0 then None else Some(s.now + timeout)));
  }

  /** The timeout never outlasts the wait, and is one at all, exactly while the wait read as a signed
      32-bit number is not negative. */
  lemma TimeoutExact(w: nat)
    ensures 0 <= Timeout(Some(w)) <= w <==> w % INT_RANGE < INT_RANGE / 2
    ensures Timeout(Some(w)) < 0 <==> w % INT_RANGE >= INT_RANGE / 2
  {
  }

  /** With no byte waiting and none on the way, the poller wakes by every armed deadline (or at once,
      if that had passed when it measured), unless the delay it measured has its 32nd bit set. */
  lemma NeverSleepsPast(run: seq<State>, steps: seq<Step>, n: nat, id: nat)
    requires Behavior(run, steps) && n < |run|
    requires run[n].phase.Asleep? && id in run[n].timers && !run[n].pipe && run[n].notifying == 0
    ensures var p := run[n].phase;
            && p.used.Some?
            && (p.until.Some? <==> Wait(p.used, p.since).value % INT_RANGE < INT_RANGE / 2)
            && (p.until.Some? ==> p.until.value <= p.since || p.until.value <= run[n].timers[id])
  {
    InvHolds(run, steps, n);
    TimeoutExact(Wait(run[n].phase.used, run[n].phase.since).value);
  }

  // ---- A round ------------------------------------------------------------------------------

  ghost predicate Steps(run: seq<State>, steps: seq<Step>) {
    |run| == |steps| + 1 && forall i :: 0 <= i < |steps| ==> Next(run[i], run[i + 1], steps[i])
  }

  lemma StepsJoin(run: seq<State>, steps: seq<Step>, run2: seq<State>, steps2: seq<Step>) returns (all: seq<State>)
    requires Steps(run, steps) && Steps(run2, steps2) && run2[0] == run[|steps|]
    ensures Steps(all, steps + steps2) && all[0] == run[0] && all[|steps| + |steps2|] == run2[|steps2|]
  {
    hide Next;
    all := run + run2[1..];
    forall i | 0 <= i < |steps| + |steps2|
      ensures Next(all[i], all[i + 1], (steps + steps2)[i])
    {
      if i >= |steps| {
        assert Next(run2[i - |steps|], run2[i - |steps| + 1], steps2[i - |steps|]);
      }
    }
  }

  lemma GoesToSleep(s: State) returns (run: seq<State>)
    requires s.phase == Entered
    ensures Steps(run, [Clear, Measure]) && run[0] == s
    ensures var t := run[2]; t.phase.Asleep? && t == s.(tickle := false, phase := t.phase)
  {
    var t := s.(phase := Cleared, tickle := false);
    var u := FallsAsleep(t);
    SameElsewhere(t, u);
    run := [s, t, u];
  }

  lemma ComesBack(s: State, gone: set<nat>, rearmed: map<nat, nat>) returns (run: seq<State>)
    requires s.phase.Asleep?
    ensures Steps(run, [Wake, Drain, Sweep(gone, rearmed), Leave]) && run[0] == s
    ensures run[4] == s.(timers := (s.timers - gone) + rearmed, pipe := false, phase := Away)
  {
    var t := s.(phase := Woken);
    var u := t.(pipe := false);
    var v := u.(timers := (s.timers - gone) + rearmed);
    run := [s, t, u, v, v.(phase := Away)];
  }

  const SLEEP: seq<Step> := [Clear, Measure]

  /** A thread that goes idle can make its round, even if its sleep is interrupted: it drains the pipe, sweeps what
      is due, arms recurring timers again, and comes back with nothing to be told. */
  lemma RoundCompletes(s: State, gone: set<nat>, rearmed: map<nat, nat>) returns (run: seq<State>, steps: seq<Step>)
    requires s.phase == Away
    ensures steps == [Enter] + SLEEP + [Retry] + SLEEP + [Wake, Drain, Sweep(gone, rearmed), Leave]
    ensures Steps(run, steps) && run[0] == s
    ensures run[|steps|] == s.(timers := (s.timers - gone) + rearmed, tickle := false, pipe := false)
  {
    var first := [s, s.(phase := Entered)];
    assert Next(s, s.(phase := Entered), Enter);
    var sleep := GoesToSleep(first[1]);
    var t := sleep[2].(phase := Entered);
    assert Next(sleep[2], t, Retry);
    var again := GoesToSleep(t);
    var back := ComesBack(again[2], gone, rearmed);
    hide Next;
    run := StepsJoin(first, [Enter], sleep, SLEEP);
    run := StepsJoin(run, [Enter] + SLEEP, [sleep[2], t], [Retry]);
    run := StepsJoin(run, [Enter] + SLEEP + [Retry], again, SLEEP);
    steps := [Enter] + SLEEP + [Retry] + SLEEP + [Wake, Drain, Sweep(gone, rearmed), Leave];
    run := StepsJoin(run, [Enter] + SLEEP + [Retry] + SLEEP, back, [Wake, Drain, Sweep(gone, rearmed), Leave]);
  }

  /** Time can pass at any point of it. */
  lemma TimePasses(s: State, d: nat)
    ensures Next(s, s.(now := s.now + d), Tick)
  {
  }

  lemma SameElsewhere(s: State, t: State)
    requires Next(s, t, Measure)
    ensures t == s.(phase := t.phase)
  {
  }

  /** While the poller sleeps, a timer that comes before all others, armed when nobody was told yet, gets its byte
      into the pipe; one that is disarmed is gone. */
  lemma ByteArrives(s: State, id: nat, deadline: nat) returns (run: seq<State>)
    requires s.phase.Asleep? && Tells(s, Arm(id, deadline))
    ensures Steps(run, [Arm(id, deadline), Notify, Disarm(id)]) && run[0] == s
    ensures run[2].pipe && run[2].timers == s.timers[id := deadline] && run[2].notifying == s.notifying
    ensures run[3].timers == s.timers - {id} && run[3].pipe
  {
    var timers := s.timers[id := deadline];
    assert forall other :: other in timers && other != id ==> timers[other] == s.timers[other];
    assert IsFirst(timers, id);
    var s1 := s.(timers := timers, tickle := true, notifying := s.notifying + 1);
    var s2 := s1.(notifying := s.notifying, pipe := true);
    run := [s, s1, s2, s2.(timers := timers - {id})];
    assert Next(s, s1, Arm(id, deadline)) && Next(s1, s2, Notify);
    assert timers - {id} == s.timers - {id};
  }
}
