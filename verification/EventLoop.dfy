/** The I/O manager's registration methods as the source runs them: the context is updated field by
    field, `epoll_ctl` is called once with the set that is left, continuations are handed over. */
module EventLoop {
  import opened Options
  import opened EventTable

  datatype Control = ADD | MOD | DEL

  /** One call of `epoll_ctl`, and whether it succeeded. */
  datatype Request = Request(op: Control, fd: nat, events: set<Event>, ok: bool)

  class IOManager {
    var contexts: seq<FdContext>
    var pending: int
    /** The kernel's interest set, what it was asked, and the tasks given to the scheduler. */
    var kernel: map<nat, set<Event>>
    var requests: seq<Request>
    var submitted: seq<Task>

    ghost function State(): Table
      reads this
    {
      Table(contexts, kernel, pending)
    }

    ghost predicate Valid()
      reads this
    {
      Book(State())
    }

    constructor ()
      ensures Valid() && submitted == [] && requests == [] && pending == 0 && kernel == map[]
      ensures contexts == seq(64, _ => FdContext({}, None, None))
    {
      contexts := seq(64, _ => EMPTY);
      pending, kernel, submitted, requests := 0, map[], [], [];
      new;
      assert contexts == [] + seq(64, _ => EMPTY);
      SumBitsGrow([], 64);
    }

    /** `epoll_ctl`: the kernel refuses to add what it watches and to change or remove what it does not;
        otherwise it may fail for reasons of its own. None of the callers ever asks for what is refused. */
    method EpollCtl(op: Control, fd: nat, events: set<Event>) returns (ok: bool)
      requires op == ADD <==> fd !in kernel
      requires op == DEL <==> events == {}
      modifies this`kernel, this`requests
      ensures kernel == if ok then Watch(old(kernel), fd, events) else old(kernel)
      ensures requests == old(requests) + [Request(op, fd, events, ok)]
    {
      ok := *;
      requests := requests + [Request(op, fd, events, ok)];
      if ok {
        kernel := if op == DEL then kernel - {fd} else kernel[fd := events];
      }
    }

    /** Clear the bit, then move the continuation out of its slot. */
    method TriggerContext(fd: nat, ev: Event)
      requires fd < |contexts| && ev in contexts[fd].events
      modifies this`contexts, this`submitted
      ensures var c := old(contexts[fd]);
              && contexts == old(contexts)[fd := c.(events := c.events - {ev}).WithSlot(ev, None)]
              && submitted == old(submitted + Held(State(), fd, ev))
    {
      var c := contexts[fd];
      c := c.(events := c.events - {ev});
      var slot := c.Slot(ev);
      if slot.Some? {
        submitted := submitted + [slot.value];
      }
      contexts := contexts[fd := c.WithSlot(ev, None)];
    }

    /** One continuation stands in slot `ev` of the descriptor, after the kernel has agreed; other slots stay. */
    method AddEvent(fd: nat, ev: Event, task: Task) returns (ret: int)
      requires Valid() && !Has(State(), fd, ev)
      modifies this`contexts, this`pending, this`kernel, this`requests
      ensures Valid() && (ret == 0 || ret == -1)
      ensures State() == Add(old(State()), fd, ev, task, ret == 0)
      ensures |contexts| == if fd < |old(contexts)| then |old(contexts)| else 2 * fd
      ensures forall i :: 0 <= i < |contexts| && i != fd ==>
                contexts[i] == if i < |old(contexts)| then old(contexts)[i] else FdContext({}, None, None)
      ensures fd < |contexts|
      ensures var c := if fd < |old(contexts)| then old(contexts)[fd] else FdContext({}, None, None);
              && requests == old(requests) + [Request(if c.events == {} then ADD else MOD, fd, c.events + {ev}, ret == 0)]
              && (ret == 0 ==>
                    && contexts[fd].events == c.events + {ev} && pending == old(pending) + 1
                    && contexts[fd].read == (if ev == READ then Some(task) else c.read)
                    && contexts[fd].write == (if ev == WRITE then Some(task) else c.write))
              && (ret == -1 ==> contexts[fd] == c && pending == old(pending))
    {
      AddKeepsBook(State(), fd, ev, task, true);
      AddKeepsBook(State(), fd, ev, task, false);
      RoomyKeepsBook(State(), fd);
      if |contexts| <= fd {
        contexts := contexts + seq(if 2 * fd < |contexts| then 0 else 2 * fd - |contexts|, _ => EMPTY);
      }
      var c := contexts[fd];
      var op := if c.events != {} then MOD else ADD;
      var newEvents := c.events + {ev};
      assert ev in newEvents;
      var ok := EpollCtl(op, fd, newEvents);
      if !ok {
        return -1;
      }
      pending := pending + 1;
      c := c.(events := newEvents);
      assert c.Slot(ev) == None;
      contexts := contexts[fd := c.WithSlot(ev, Some(task))];
      ret := 0;
    }

    /** Ask the kernel to watch `left` for `fd`, which has registrations. */
    method Rewatch(fd: nat, left: set<Event>) returns (ok: bool)
      requires fd in kernel
      modifies this`kernel, this`requests
      ensures requests == old(requests) + [Request(if left == {} then DEL else MOD, fd, left, ok)]
      ensures kernel == if ok then Watch(old(kernel), fd, left) else old(kernel)
    {
      var op := if left != {} then MOD else DEL;
      ok := EpollCtl(op, fd, left);
    }

    /** What is left of a context when the named registrations are gone. */
    static function Without(c: FdContext, read: bool, write: bool): FdContext {
      FdContext((if READ in c.events && !read then {READ} else {})
                + (if WRITE in c.events && !write then {WRITE} else {}),
                if read then None else c.read, if write then None else c.write)
    }

    /** The registered continuations of `c` among the named ones, the reader's first. */
    static function Resumed(c: FdContext, read: bool, write: bool): seq<Task>
      requires Filled(c) && (read ==> READ in c.events) && (write ==> WRITE in c.events)
    {
      (if read then [c.read.value] else []) + if write then [c.write.value] else []
    }

    /** The registrations of `fd` that `read` and `write` name are taken out exactly if the kernel agrees to
        watch the rest; if nothing is named the kernel is not asked. All else stays. */
    twostate predicate TakenOut(fd: nat, read: bool, write: bool, done: bool)
      requires fd < |old(contexts)|
      reads this
    {
      var c := old(contexts)[fd];
      var rest := Without(c, read, write);
      && requests == old(requests) + (if !read && !write then []
                                      else [Request(if rest.events == {} then DEL else MOD, fd, rest.events, done)])
      && (done ==> read || write)
      && contexts == (if done then old(contexts)[fd := rest] else old(contexts))
      && pending == old(pending) - (if done && read then 1 else 0) - (if done && write then 1 else 0)
    }

    method DelEvent(fd: nat, ev: Event) returns (done: bool)
      requires Valid()
      modifies this`contexts, this`pending, this`kernel, this`requests
      ensures Valid() && (done ==> old(Has(State(), fd, ev)))
      ensures if fd < |old(contexts)|
              then var on := ev in old(contexts)[fd].events; TakenOut(fd, on && ev == READ, on && ev == WRITE, done)
              else !done && requests == old(requests)
      ensures State() == Del(old(State()), fd, ev, done)
    {
      assert requests + [] == requests;
      if |contexts| <= fd {
        return false;
      }
      var c := contexts[fd];
      if ev !in c.events {
        return false;
      }
      ClearKeepsBook(State(), fd, ev);
      WithoutOne(c, ev);
      var newEvents := c.events - {ev};
      var ok := Rewatch(fd, newEvents);
      if !ok {
        return false;
      }
      pending := pending - 1;
      contexts := contexts[fd := c.(events := newEvents).WithSlot(ev, None)];
      done := true;
    }

    /** The continuation, if the kernel agrees, is submitted. */
    method CancelEvent(fd: nat, ev: Event) returns (done: bool)
      requires Valid()
      modifies this
      ensures Valid() && (done ==> old(Has(State(), fd, ev)))
      ensures (State(), submitted) == (Cancel(old(State()), fd, ev, done).0,
                                       old(submitted) + Cancel(old(State()), fd, ev, done).1)
      ensures if fd < |old(contexts)|
              then var on := ev in old(contexts)[fd].events; TakenOut(fd, on && ev == READ, on && ev == WRITE, done)
              else !done && requests == old(requests)
      ensures submitted == old(submitted) + if !done then [] else
                                              Resumed(old(contexts)[fd], ev == READ, ev == WRITE)
    {
      assert requests + [] == requests;
      if |contexts| <= fd || ev !in contexts[fd].events {
        assert submitted == submitted + [];
        return false;
      }
      ClearKeepsBook(State(), fd, ev);
      WithoutOne(contexts[fd], ev);
      var ok := Rewatch(fd, contexts[fd].events - {ev});
      if !ok {
        assert submitted == submitted + [];
        return false;
      }
      TriggerContext(fd, ev);
      pending := pending - 1;
      done := true;
    }

    /** Trigger what `events` and the registrations have in common; the kernel already watches the rest. */
    method TriggerAll(fd: nat, events: set<Event>, ghost before: Table)
      requires Book(before) && fd < |contexts| && contexts == before.contexts && pending == before.pending
      requires kernel == Watch(before.kernel, fd, contexts[fd].events - events)
      modifies this
      ensures requests == old(requests)
      ensures (State(), submitted) == (Trigger(before, fd, events).0, old(submitted) + Trigger(before, fd, events).1)
    {
      var common := contexts[fd].events * events;
      WatchTwice(before, fd, events);
      CancelWatches(before, fd, READ);
      if READ in common {
        TriggerContext(fd, READ);
        pending := pending - 1;
      }
      ghost var (u, first) := if READ in events then Cancel(before, fd, READ, true) else (before, []);
      assert submitted == old(submitted) + first && contexts == u.contexts && pending == u.pending;
      ghost var (v, second) := if WRITE in events then Cancel(u, fd, WRITE, true) else (u, []);
      assert old(submitted) + first + second == old(submitted) + (first + second);
      if WRITE in common {
        TriggerContext(fd, WRITE);
        pending := pending - 1;
      }
      assert submitted == old(submitted) + first + second;
      assert contexts == v.contexts && pending == v.pending;
      assert kernel == v.kernel;
    }

    /** All continuations, if the kernel agrees, are submitted. */
    method CancelAll(fd: nat) returns (done: bool)
      requires Valid()
      modifies this
      ensures Valid() && (done ==> fd < |old(contexts)| && old(contexts)[fd].events != {})
      ensures (State(), submitted) == (EventTable.CancelAll(old(State()), fd, done).0,
                                       old(submitted) + EventTable.CancelAll(old(State()), fd, done).1)
      ensures if fd < |old(contexts)|
              then var e := old(contexts)[fd].events; TakenOut(fd, READ in e, WRITE in e, done)
              else !done && requests == old(requests)
      ensures submitted == old(submitted) + if !done then [] else
                                              var c := old(contexts)[fd]; Resumed(c, READ in c.events, WRITE in c.events)
    {
      assert requests + [] == requests;
      if |contexts| <= fd || contexts[fd].events == {} {
        assert submitted == submitted + [];
        return false;
      }
      TriggerKeepsBook(State(), fd, {READ, WRITE});
      WithoutMore(State(), fd, {READ, WRITE});
      NoOthers(contexts[fd].events);
      ghost var before := State();
      var ok := EpollCtl(DEL, fd, {});
      if !ok {
        assert submitted == submitted + [];
        return false;
      }
      TriggerAll(fd, {READ, WRITE}, before);
      done := true;
    }

    /** The loop body of `idle` for one descriptor that `epoll_wait` reported: if the kernel agrees, a registered
        reader is submitted just when input or an error was reported, a writer when output or an error was. */
    method HandleReport(fd: nat, report: Report) returns (done: bool)
      requires Valid() && fd < |contexts|
      modifies this
      ensures Valid() && |contexts| == |old(contexts)|
      ensures (State(), submitted) == (Dispatch(old(State()), fd, report, done).0,
                                       old(submitted) + Dispatch(old(State()), fd, report, done).1)
      ensures var c := old(contexts)[fd];
              var read := READ in c.events && (report.input || report.error);
              var write := WRITE in c.events && (report.output || report.error);
              && TakenOut(fd, read, write, done)
              && submitted == old(submitted) + if done then Resumed(c, read, write) else []
    {
      assert requests + [] == requests;
      var ready := Readiness(report);
      if contexts[fd].events * ready == {} {
        assert submitted == submitted + [];
        return false;
      }
      TriggerKeepsBook(State(), fd, ready);
      WithoutMore(State(), fd, ready);
      ghost var before := State();
      var ok := Rewatch(fd, contexts[fd].events - ready);
      if !ok {
        assert submitted == submitted + [];
        return false;
      }
      TriggerAll(fd, ready, before);
      done := true;
    }

    /** The loop of `idle` over what one `epoll_wait` reported: every continuation that leaves its slot
        is submitted, once. */
    method HandleReports(reports: seq<(nat, Report)>)
      requires Valid() && forall i :: 0 <= i < |reports| ==> reports[i].0 < |contexts|
      modifies this
      ensures Valid()
      ensures forall x :: Waiting(contexts, x) + Count(submitted, x) == old(Waiting(contexts, x) + Count(submitted, x))
    {
      var i := 0;
      while i < |reports|
        invariant Valid() && |contexts| == |old(contexts)| && i <= |reports|
        invariant forall x :: Waiting(contexts, x) + Count(submitted, x) == old(Waiting(contexts, x) + Count(submitted, x))
      {
        ghost var before, given := State(), submitted;
        var done := HandleReport(reports[i].0, reports[i].1);
        forall x
          ensures Waiting(contexts, x) + Count(submitted, x) == Waiting(before.contexts, x) + Count(given, x)
        {
          DispatchSchedules(before, reports[i].0, reports[i].1, done, x);
          CountConcat(given, Dispatch(before, reports[i].0, reports[i].1, done).1, x);
        }
        i := i + 1;
      }
    }
  }

  lemma WithoutOne(c: FdContext, ev: Event)
    requires ev in c.events
    ensures c.(events := c.events - {ev}).WithSlot(ev, None) == IOManager.Without(c, ev == READ, ev == WRITE)
  {
    OneOrOther(c.events - {ev}, IOManager.Without(c, ev == READ, ev == WRITE).events);
  }

  lemma OneOrOther(a: set<Event>, b: set<Event>)
    requires (READ in a <==> READ in b) && (WRITE in a <==> WRITE in b)
    ensures a == b
  {
    forall ev: Event
      ensures ev in a <==> ev in b
    {
      assert ev == READ || ev == WRITE;
    }
  }

  /** What triggering does to the context, and whom it resumes. */
  lemma WithoutMore(t: Table, fd: nat, events: set<Event>)
    requires Book(t) && fd < |t.contexts|
    ensures var c := t.contexts[fd];
            var read, write := READ in c.events && READ in events, WRITE in c.events && WRITE in events;
            var rest := IOManager.Without(c, read, write);
            && c.events - events == rest.events && (c.events * events == {} <==> !read && !write)
            && Trigger(t, fd, events).0.contexts == t.contexts[fd := rest]
            && Trigger(t, fd, events).0.pending == t.pending - (if read then 1 else 0) - (if write then 1 else 0)
            && Trigger(t, fd, events).1 == IOManager.Resumed(c, read, write)
  {
    var c := t.contexts[fd];
    var read, write := READ in c.events && READ in events, WRITE in c.events && WRITE in events;
    OneOrOther(c.events - events, IOManager.Without(c, read, write).events);
    assert read ==> READ in c.events * events;
    assert write ==> WRITE in c.events * events;
    assert Filled(c);
    if read {
      WithoutOne(c, READ);
    }
    var u := if READ in events then Cancel(t, fd, READ, true).0 else t;
    assert u.contexts == t.contexts[fd := IOManager.Without(c, read, false)] by {
      OneOrOther(c.events, IOManager.Without(c, false, false).events);
    }
    if write {
      WithoutOne(u.contexts[fd], WRITE);
    }
  }

  lemma NoOthers(events: set<Event>)
    ensures events - {READ, WRITE} == {}
  {
    forall ev | ev in events
      ensures ev in {READ, WRITE}
    {
      assert ev == READ || ev == WRITE;
    }
  }

  /** Taking the watched events away one by one, as `Trigger` does, leaves what taking them away at once leaves. */
  lemma WatchTwice(t: Table, fd: nat, events: set<Event>)
    requires Book(t) && fd < |t.contexts|
    ensures Trigger(t, fd, events).0.kernel == Watch(t.kernel, fd, t.contexts[fd].events - events)
  {
    var e := t.contexts[fd].events;
    var first := if READ in events then e - {READ} else e;
    var both := if WRITE in events then first - {WRITE} else first;
    var u := if READ in events then Cancel(t, fd, READ, true).0 else t;
    CancelWatches(t, fd, READ);
    CancelWatches(u, fd, WRITE);
    WatchKept(t, fd);
    WatchKept(u, fd);
    assert u.contexts[fd].events == first;
    assert u.kernel == Watch(t.kernel, fd, first);
    WatchAgain(t.kernel, fd, first, both);
    assert both == e - events by {
      forall ev: Event
        ensures ev in both <==> ev in e - events
      {
        assert ev == READ || ev == WRITE;
      }
    }
  }

  lemma CancelWatches(t: Table, fd: nat, ev: Event)
    requires Book(t) && fd < |t.contexts|
    ensures var (u, _) := Cancel(t, fd, ev, true);
            && Book(u) && |u.contexts| == |t.contexts|
            && u.contexts[fd].events == t.contexts[fd].events - {ev}
            && u.kernel == Watch(t.kernel, fd, t.contexts[fd].events - {ev})
  {
    if Has(t, fd, ev) {
      ClearKeepsBook(t, fd, ev);
    } else {
      WatchKept(t, fd);
      assert t.contexts[fd].events - {ev} == t.contexts[fd].events;
    }
  }

  lemma WatchAgain(kernel: map<nat, set<Event>>, fd: nat, a: set<Event>, b: set<Event>)
    ensures Watch(Watch(kernel, fd, a), fd, b) == Watch(kernel, fd, b)
  {
  }

  lemma WatchKept(t: Table, fd: nat)
    requires Book(t) && fd < |t.contexts|
    ensures Watch(t.kernel, fd, t.contexts[fd].events) == t.kernel
  {
  }
}
