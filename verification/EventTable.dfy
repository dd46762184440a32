/** Event registrations per descriptor, as values: what each operation of the I/O manager does to the
    registrations, to the kernel's interest set, and to the count of pending events, and which tasks it
    hands to the scheduler. */
module EventTable {
  import opened Options

  datatype Event = READ | WRITE

  /** What a registration resumes: a fiber, or a callback. */
  datatype Task = Fiber(f: nat) | Call(c: nat)

  datatype FdContext = FdContext(events: set<Event>, read: Option<Task>, write: Option<Task>) {
    function Slot(ev: Event): Option<Task> {
      if ev.READ? then read else write
    }

    function WithSlot(ev: Event, task: Option<Task>): FdContext {
      if ev.READ? then this.(read := task) else this.(write := task)
    }
  }

  const EMPTY := FdContext({}, None, None)

  datatype Table = Table(contexts: seq<FdContext>, kernel: map<nat, set<Event>>, pending: int)

  // ---- Bookkeeping --------------------------------------------------------------------------

  /** A bit is set just when its slot is taken. */
  predicate Filled(c: FdContext) {
    (READ in c.events <==> c.read.Some?) && (WRITE in c.events <==> c.write.Some?)
  }

  function Bits(c: FdContext): nat {
    (if READ in c.events then 1 else 0) + if WRITE in c.events then 1 else 0
  }

  function SumBits(contexts: seq<FdContext>): nat {
    if contexts == [] then 0 else Bits(contexts[0]) + SumBits(contexts[1..])
  }

  /** The kernel watches exactly the registered events, of exactly the descriptors that have some. */
  ghost predicate Mirrored(t: Table) {
    && (forall fd :: fd in t.kernel ==> fd < |t.contexts|)
    && (forall fd :: 0 <= fd < |t.contexts| ==>
          if t.contexts[fd].events == {} then fd !in t.kernel
          else fd in t.kernel && t.kernel[fd] == t.contexts[fd].events)
  }

  ghost predicate Book(t: Table) {
    && |t.contexts| > 0
    && (forall fd :: 0 <= fd < |t.contexts| ==> Filled(t.contexts[fd]))
    && Mirrored(t)
    && t.pending == SumBits(t.contexts)
  }

  lemma {:induction false} SumBitsUpdate(contexts: seq<FdContext>, fd: nat, c: FdContext)
    requires fd < |contexts|
    ensures SumBits(contexts[fd := c]) == SumBits(contexts) - Bits(contexts[fd]) + Bits(c)
  {
    if fd > 0 {
      SumBitsUpdate(contexts[1..], fd - 1, c);
      assert contexts[fd := c][1..] == contexts[1..][fd - 1 := c];
    }
  }

  lemma {:induction false} SumBitsGrow(contexts: seq<FdContext>, n: nat)
    ensures SumBits(contexts + seq(n, _ => EMPTY)) == SumBits(contexts)
    decreases |contexts|, n
  {
    var more := seq(n, _ => EMPTY);
    if contexts != [] {
      SumBitsGrow(contexts[1..], n);
      assert (contexts + more)[1..] == contexts[1..] + more;
    } else if n > 0 {
      SumBitsGrow([], n - 1);
      assert (contexts + more)[1..] == [] + seq(n - 1, _ => EMPTY);
    }
  }

  lemma {:induction false} SumBitsZero(contexts: seq<FdContext>, fd: nat)
    requires SumBits(contexts) == 0 && fd < |contexts|
    ensures contexts[fd].events == {}
  {
    if fd > 0 {
      SumBitsZero(contexts[1..], fd - 1);
    } else {
      var e := contexts[0].events;
      assert forall ev :: ev in e ==> ev == READ || ev == WRITE;
    }
  }

  // ---- Operations ---------------------------------------------------------------------------

  /** The table with room for `fd`: `contextResize(fd * 2)` when it lies past the end. */
  function Roomy(t: Table, fd: nat): Table {
    if fd < |t.contexts| then t else t.(contexts := t.contexts + seq(Past(t, fd), _ => EMPTY))
  }

  function Past(t: Table, fd: nat): nat {
    if 2 * fd < |t.contexts| then 0 else 2 * fd - |t.contexts|
  }

  /** Registered set `events` for `fd`, as `EPOLL_CTL_ADD`, `MOD` or `DEL` leaves it. */
  function Watch(kernel: map<nat, set<Event>>, fd: nat, events: set<Event>): map<nat, set<Event>> {
    if events == {} then kernel - {fd} else kernel[fd := events]
  }

  predicate Has(t: Table, fd: nat, ev: Event) {
    fd < |t.contexts| && ev in t.contexts[fd].events
  }

  /** `addEvent`; `ok` is whether `epoll_ctl` succeeded. */
  function Add(t: Table, fd: nat, ev: Event, task: Task, ok: bool): Table
    requires |t.contexts| > 0 && !Has(t, fd, ev)
  {
    var u := Roomy(t, fd);
    if !ok then u else
      var c := u.contexts[fd];
      Table(u.contexts[fd := c.(events := c.events + {ev}).WithSlot(ev, Some(task))],
            Watch(u.kernel, fd, c.events + {ev}), u.pending + 1)
  }

  /** Clear the bit and the slot of `ev`, and stop watching it. */
  function Clear(t: Table, fd: nat, ev: Event): Table
    requires Has(t, fd, ev)
  {
    var c := t.contexts[fd];
    var left := c.events - {ev};
    Table(t.contexts[fd := c.(events := left).WithSlot(ev, None)], Watch(t.kernel, fd, left), t.pending - 1)
  }

  function Held(t: Table, fd: nat, ev: Event): seq<Task>
    requires fd < |t.contexts|
  {
    var slot := t.contexts[fd].Slot(ev);
    if slot.Some? then [slot.value] else []
  }

  /** `delEvent` drops the continuation. */
  function Del(t: Table, fd: nat, ev: Event, ok: bool): Table {
    if Has(t, fd, ev) && ok then Clear(t, fd, ev) else t
  }

  /** `cancelEvent` schedules it. */
  function Cancel(t: Table, fd: nat, ev: Event, ok: bool): (r: (Table, seq<Task>)) {
    if Has(t, fd, ev) && ok then (Clear(t, fd, ev), Held(t, fd, ev)) else (t, [])
  }

  /** Trigger those of `events` that are registered, reads first. */
  function Trigger(t: Table, fd: nat, events: set<Event>): (Table, seq<Task>)
    requires fd < |t.contexts|
  {
    var (u, first) := if READ in events then Cancel(t, fd, READ, true) else (t, []);
    var (v, second) := if WRITE in events then Cancel(u, fd, WRITE, true) else (u, []);
    (v, first + second)
  }

  /** `cancelAll` triggers all that is registered. */
  function CancelAll(t: Table, fd: nat, ok: bool): (Table, seq<Task>) {
    if fd < |t.contexts| && t.contexts[fd].events != {} && ok then Trigger(t, fd, {READ, WRITE}) else (t, [])
  }

  /** What `epoll_wait` reports for a descriptor. */
  datatype Report = Report(input: bool, output: bool, error: bool)

  /** An error or hang-up counts as readiness of both kinds. */
  function Readiness(r: Report): set<Event> {
    (if r.input || r.error then {READ} else {}) + if r.output || r.error then {WRITE} else {}
  }

  /** The body of the loop in `idle` for one reported descriptor. */
  function Dispatch(t: Table, fd: nat, r: Report, ok: bool): (Table, seq<Task>) {
    if fd < |t.contexts| && t.contexts[fd].events * Readiness(r) != {} && ok
    then Trigger(t, fd, Readiness(r)) else (t, [])
  }

  // ---- What every operation keeps -----------------------------------------------------------

  /** Replacing one context, and watching and counting what it then registers, keeps the books. */
  lemma ReplaceKeepsBook(t: Table, fd: nat, d: FdContext)
    requires Book(t) && fd < |t.contexts| && Filled(d)
    ensures Book(Table(t.contexts[fd := d], Watch(t.kernel, fd, d.events), t.pending - Bits(t.contexts[fd]) + Bits(d)))
  {
    SumBitsUpdate(t.contexts, fd, d);
  }

  lemma RoomyKeepsBook(t: Table, fd: nat)
    requires Book(t)
    ensures Book(Roomy(t, fd)) && fd < |Roomy(t, fd).contexts|
    ensures Has(Roomy(t, fd), fd, READ) == Has(t, fd, READ) && Has(Roomy(t, fd), fd, WRITE) == Has(t, fd, WRITE)
  {
    SumBitsGrow(t.contexts, Past(t, fd));
  }

  lemma AddKeepsBook(t: Table, fd: nat, ev: Event, task: Task, ok: bool)
    requires Book(t) && !Has(t, fd, ev)
    ensures Book(Add(t, fd, ev, task, ok))
  {
    RoomyKeepsBook(t, fd);
    if ok {
      var u := Roomy(t, fd);
      var c := u.contexts[fd];
      ReplaceKeepsBook(u, fd, c.(events := c.events + {ev}).WithSlot(ev, Some(task)));
    }
  }

  lemma ClearKeepsBook(t: Table, fd: nat, ev: Event)
    requires Book(t) && Has(t, fd, ev)
    ensures Book(Clear(t, fd, ev)) && |Held(t, fd, ev)| == 1
  {
    var c := t.contexts[fd];
    ReplaceKeepsBook(t, fd, c.(events := c.events - {ev}).WithSlot(ev, None));
  }

  lemma TriggerKeepsBook(t: Table, fd: nat, events: set<Event>)
    requires Book(t) && fd < |t.contexts|
    ensures Book(Trigger(t, fd, events).0)
  {
    if READ in events && Has(t, fd, READ) {
      ClearKeepsBook(t, fd, READ);
    }
    var u := if READ in events then Cancel(t, fd, READ, true).0 else t;
    if WRITE in events && Has(u, fd, WRITE) {
      ClearKeepsBook(u, fd, WRITE);
    }
  }

  // ---- Continuations are conserved ----------------------------------------------------------

  function Is(slot: Option<Task>, x: Task): nat {
    if slot == Some(x) then 1 else 0
  }

  /** How many slots `x` waits in. */
  function Waiting(contexts: seq<FdContext>, x: Task): nat {
    if contexts == [] then 0
    else Is(contexts[0].read, x) + Is(contexts[0].write, x) + Waiting(contexts[1..], x)
  }

  /** How often `x` occurs. */
  function Count<T(==)>(s: seq<T>, x: T): nat {
    if s == [] then 0 else (if s[0] == x then 1 else 0) + Count(s[1..], x)
  }

  lemma {:induction false} CountConcat<T>(a: seq<T>, b: seq<T>, x: T)
    ensures Count(a + b, x) == Count(a, x) + Count(b, x)
  {
    if a == [] {
      assert a + b == b;
    } else {
      CountConcat(a[1..], b, x);
      assert (a + b)[1..] == a[1..] + b;
    }
  }

  lemma {:induction false} WaitingUpdate(contexts: seq<FdContext>, fd: nat, c: FdContext, x: Task)
    requires fd < |contexts|
    ensures Waiting(contexts[fd := c], x) + Is(contexts[fd].read, x) + Is(contexts[fd].write, x)
            == Waiting(contexts, x) + Is(c.read, x) + Is(c.write, x)
  {
    if fd > 0 {
      WaitingUpdate(contexts[1..], fd - 1, c, x);
      assert contexts[fd := c][1..] == contexts[1..][fd - 1 := c];
    }
  }

  lemma {:induction false} WaitingGrow(contexts: seq<FdContext>, n: nat, x: Task)
    ensures Waiting(contexts + seq(n, _ => EMPTY), x) == Waiting(contexts, x)
    decreases |contexts|, n
  {
    var more := seq(n, _ => EMPTY);
    if contexts != [] {
      WaitingGrow(contexts[1..], n, x);
      assert (contexts + more)[1..] == contexts[1..] + more;
    } else if n > 0 {
      WaitingGrow([], n - 1, x);
      assert (contexts + more)[1..] == [] + seq(n - 1, _ => EMPTY);
    }
  }

  /** A successful registration waits; a failed one does not. */
  lemma AddWaits(t: Table, fd: nat, ev: Event, task: Task, ok: bool, x: Task)
    requires Book(t) && !Has(t, fd, ev)
    ensures Waiting(Add(t, fd, ev, task, ok).contexts, x)
            == Waiting(t.contexts, x) + if ok && task == x then 1 else 0
  {
    RoomyKeepsBook(t, fd);
    WaitingGrow(t.contexts, Past(t, fd), x);
    if ok {
      var u := Roomy(t, fd);
      var c := u.contexts[fd];
      WaitingUpdate(u.contexts, fd, c.(events := c.events + {ev}).WithSlot(ev, Some(task)), x);
    }
  }

  lemma ClearReleases(t: Table, fd: nat, ev: Event, x: Task)
    requires Book(t) && Has(t, fd, ev)
    ensures Waiting(Clear(t, fd, ev).contexts, x) + Count(Held(t, fd, ev), x) == Waiting(t.contexts, x)
  {
    var c := t.contexts[fd];
    WaitingUpdate(t.contexts, fd, c.(events := c.events - {ev}).WithSlot(ev, None), x);
  }

  /** What a cancellation takes out of its slot is what it schedules. */
  lemma CancelSchedules(t: Table, fd: nat, ev: Event, ok: bool, x: Task)
    requires Book(t)
    ensures Book(Cancel(t, fd, ev, ok).0)
    ensures var (u, tasks) := Cancel(t, fd, ev, ok);
            Waiting(u.contexts, x) + Count(tasks, x) == Waiting(t.contexts, x)
  {
    if Has(t, fd, ev) && ok {
      ClearKeepsBook(t, fd, ev);
      ClearReleases(t, fd, ev, x);
    }
  }

  lemma TriggerSchedules(t: Table, fd: nat, events: set<Event>, x: Task)
    requires Book(t) && fd < |t.contexts|
    ensures Book(Trigger(t, fd, events).0)
    ensures var (v, tasks) := Trigger(t, fd, events);
            Waiting(v.contexts, x) + Count(tasks, x) == Waiting(t.contexts, x)
  {
    hide Waiting, Count, Book, Cancel;
    var (u, first) := if READ in events then Cancel(t, fd, READ, true) else (t, []);
    CancelSchedules(t, fd, READ, true, x);
    CancelSchedules(u, fd, WRITE, true, x);
    CountNone(x);
    var second := if WRITE in events then Cancel(u, fd, WRITE, true).1 else [];
    CountConcat(first, second, x);
  }

  lemma CancelAllSchedules(t: Table, fd: nat, ok: bool, x: Task)
    requires Book(t)
    ensures Book(CancelAll(t, fd, ok).0)
    ensures var (v, tasks) := CancelAll(t, fd, ok);
            Waiting(v.contexts, x) + Count(tasks, x) == Waiting(t.contexts, x)
  {
    if fd < |t.contexts| {
      TriggerSchedules(t, fd, {READ, WRITE}, x);
    }
  }

  lemma DispatchSchedules(t: Table, fd: nat, report: Report, ok: bool, x: Task)
    requires Book(t)
    ensures Book(Dispatch(t, fd, report, ok).0)
    ensures var (v, tasks) := Dispatch(t, fd, report, ok);
            Waiting(v.contexts, x) + Count(tasks, x) == Waiting(t.contexts, x)
  {
    if fd < |t.contexts| {
      TriggerSchedules(t, fd, Readiness(report), x);
    }
  }

  lemma CountNone<T>(x: T)
    ensures Count([], x) == 0
  {
  }
}
