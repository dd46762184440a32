/** All interleavings of the event operations, with the history of every continuation. */
module EventHistory {
  import opened Options
  import opened EventTable

  /** The table with its history: how many continuations were registered (each a fresh number), which
      were handed to the scheduler, in order, and which `delEvent` dropped. */
  datatype History = History(table: Table, issued: nat, scheduled: seq<Task>, dropped: seq<Task>)

  datatype Op =
    | OpAdd(fd: nat, ev: Event, ok: bool)
    | OpDel(fd: nat, ev: Event, ok: bool)
    | OpCancel(fd: nat, ev: Event, ok: bool)
    | OpCancelAll(fd: nat, ok: bool)
    | OpReport(fd: nat, report: Report, ok: bool)

  function Handed(h: History, r: (Table, seq<Task>)): History {
    h.(table := r.0, scheduled := h.scheduled + r.1)
  }

  /** One critical section, of whichever thread. Registering an event twice is a failed assertion in the source. */
  predicate Next(h: History, g: History, op: Op) {
    match op
    case OpAdd(fd, ev, ok) =>
      && |h.table.contexts| > 0 && !Has(h.table, fd, ev)
      && g == h.(table := Add(h.table, fd, ev, Call(h.issued), ok), issued := h.issued + if ok then 1 else 0)
    case OpDel(fd, ev, ok) =>
      // the same bookkeeping as a cancellation, but the continuation goes nowhere
      var (u, tasks) := Cancel(h.table, fd, ev, ok);
      u == Del(h.table, fd, ev, ok) && g == h.(table := u, dropped := h.dropped + tasks)
    case OpCancel(fd, ev, ok) => g == Handed(h, Cancel(h.table, fd, ev, ok))
    case OpCancelAll(fd, ok) => g == Handed(h, CancelAll(h.table, fd, ok))
    case OpReport(fd, report, ok) => g == Handed(h, Dispatch(h.table, fd, report, ok))
  }

  /** In how many places continuation `k` is: slots, the scheduler's record, the dropped ones. */
  function Places(h: History, k: nat): nat {
    Waiting(h.table.contexts, Call(k)) + Count(h.scheduled, Call(k)) + Count(h.dropped, Call(k))
  }

  ghost predicate Inv(h: History) {
    Book(h.table) && forall k: nat :: Places(h, k) == if k < h.issued then 1 else 0
  }

  ghost predicate Start(h: History) {
    && |h.table.contexts| > 0 && h.table.kernel == map[] && h.table.pending == 0
    && (forall fd :: 0 <= fd < |h.table.contexts| ==> h.table.contexts[fd] == EMPTY)
    && h.issued == 0 && h.scheduled == [] && h.dropped == []
  }

  lemma StartInv(h: History)
    requires Start(h)
    ensures Inv(h)
  {
    var n := |h.table.contexts|;
    assert h.table.contexts == [] + seq(n, _ => EMPTY);
    SumBitsGrow([], n);
    forall k: nat
      ensures Places(h, k) == 0
    {
      WaitingGrow([], n, Call(k));
    }
  }

  /** An operation that moves continuations from slots to the scheduler or away keeps the invariant. */
  lemma NextPlaces(h: History, g: History, op: Op, k: nat)
    requires Inv(h) && Next(h, g, op)
    ensures Book(g.table)
    ensures Places(g, k) == Places(h, k) + if g.issued > h.issued && k == h.issued then 1 else 0
    ensures g.issued == h.issued || g.issued == h.issued + 1
  {
    var t, x := h.table, Call(k);
    hide Waiting, Count, Book, Add, Cancel, Trigger;
    CountNone(x);
    match op
    case OpAdd(fd, ev, ok) =>
      BookHasContexts(t);
      AddKeepsBook(t, fd, ev, Call(h.issued), ok);
      AddWaits(t, fd, ev, Call(h.issued), ok, x);
    case OpDel(fd, ev, ok) =>
      CancelSchedules(t, fd, ev, ok, x);
      CountConcat(h.dropped, Cancel(t, fd, ev, ok).1, x);
    case OpCancel(fd, ev, ok) =>
      CancelSchedules(t, fd, ev, ok, x);
      CountConcat(h.scheduled, Cancel(t, fd, ev, ok).1, x);
    case OpCancelAll(fd, ok) =>
      CancelAllSchedules(t, fd, ok, x);
      CountConcat(h.scheduled, CancelAll(t, fd, ok).1, x);
    case OpReport(fd, report, ok) =>
      DispatchSchedules(t, fd, report, ok, x);
      CountConcat(h.scheduled, Dispatch(t, fd, report, ok).1, x);
  }

  lemma BookHasContexts(t: Table)
    requires Book(t)
    ensures |t.contexts| > 0
  {
  }

  lemma NextInv(h: History, g: History, op: Op)
    requires Inv(h) && Next(h, g, op)
    ensures Inv(g)
  {
    hide Places, Next, Book;
    NextPlaces(h, g, op, 0);
    forall k: nat
      ensures Places(g, k) == if k < g.issued then 1 else 0
    {
      NextPlaces(h, g, op, k);
    }
  }

  ghost predicate Behavior(run: seq<History>, ops: seq<Op>) {
    && |run| == |ops| + 1 && Start(run[0])
    && forall i :: 0 <= i < |ops| ==> Next(run[i], run[i + 1], ops[i])
  }

  /** Over every interleaving: a bit is set iff its slot is taken, the kernel watches exactly the
      registered events, and the pending count is the number of set bits; and each registered
      continuation is in exactly one place: it waits in one slot, was scheduled once, or was dropped by
      `delEvent`. */
  lemma {:induction false} BookkeepingHolds(run: seq<History>, ops: seq<Op>, n: nat, k: nat)
    requires Behavior(run, ops) && n < |run|
    ensures Book(run[n].table)
    ensures Places(run[n], k) == if k < run[n].issued then 1 else 0
  {
    InvHolds(run, ops, n);
  }

  lemma {:induction false} InvHolds(run: seq<History>, ops: seq<Op>, n: nat)
    requires Behavior(run, ops) && n < |run|
    ensures Inv(run[n])
  {
    if n == 0 {
      StartInv(run[0]);
    } else {
      InvHolds(run, ops, n - 1);
      NextInv(run[n - 1], run[n], ops[n - 1]);
    }
  }

  /** Continuations are dropped by `delEvent` alone, and scheduled by cancellations and reports alone. */
  lemma WhoMovesThem(h: History, g: History, op: Op)
    requires Next(h, g, op)
    ensures h.scheduled <= g.scheduled && h.dropped <= g.dropped
    ensures g.dropped != h.dropped ==> op.OpDel?
    ensures g.scheduled != h.scheduled ==> op.OpCancel? || op.OpCancelAll? || op.OpReport?
    ensures g.issued != h.issued ==> op.OpAdd? && op.ok
  {
    hide Cancel, CancelAll, Dispatch, Add, Del, Has;
  }

  /** Every operation can come next in every state, but for a second registration of an event. */
  lemma AnyOpCanCome(h: History, op: Op) returns (g: History)
    requires Inv(h) && !(op.OpAdd? && Has(h.table, op.fd, op.ev))
    ensures Next(h, g, op)
  {
    BookHasContexts(h.table);
    hide Inv, Book, Add;
    match op
    case OpAdd(fd, ev, ok) =>
      g := h.(table := Add(h.table, fd, ev, Call(h.issued), ok), issued := h.issued + if ok then 1 else 0);
    case OpDel(fd, ev, ok) =>
      var r := Cancel(h.table, fd, ev, ok);
      g := h.(table := r.0, dropped := h.dropped + r.1);
    case OpCancel(fd, ev, ok) => g := Handed(h, Cancel(h.table, fd, ev, ok));
    case OpCancelAll(fd, ok) => g := Handed(h, CancelAll(h.table, fd, ok));
    case OpReport(fd, report, ok) => g := Handed(h, Dispatch(h.table, fd, report, ok));
  }
}
