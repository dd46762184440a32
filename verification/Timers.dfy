/** The timer set: armed timers kept in deadline order, keyed by fields that the timers themselves change. */
module Timers {
  import opened Options

  const ROLLOVER_MS := 60 * 60 * 1000
  const CLOCK_RANGE := 0x1_0000_0000_0000_0000

  /** A callback, by name. */
  type Callback = nat

  class Timer {
    /** The object's address, which breaks ties between deadlines. */
    const id: nat
    const recurring: bool
    var ms: nat
    var next: nat
    var cb: Option<Callback>

    constructor (id: nat, ms: nat, cb: Callback, recurring: bool, now: nat)
      ensures this.id == id && this.ms == ms && this.next == now + ms
      ensures this.cb == Some(cb) && this.recurring == recurring
    {
      this.id, this.ms, this.next := id, ms, now + ms;
      this.cb, this.recurring := Some(cb), recurring;
    }

    /** `Timer::Comparator` on two timers. */
    predicate Before(other: Timer)
      reads this`next, other`next
    {
      if next == other.next then id < other.id else next < other.next
    }
  }

  class TimerManager {
    /** The armed timers, in the order a `std::set` with `Timer::Comparator` keeps them. */
    var timers: seq<Timer>
    var tickle: bool
    var previousTime: nat
    /** Every live timer of this manager. */
    ghost var all: set<Timer>

    constructor (now: nat)
      ensures Valid() && timers == [] && all == {} && !tickle && previousTime == now
    {
      timers, tickle, previousTime, all := [], false, now, {};
    }

    ghost predicate Sorted()
      reads this`timers, timers
    {
      forall i, j :: 0 <= i < j < |timers| ==> timers[i].Before(timers[j])
    }

    /** Timers are told apart by their addresses, and each deadline is at least one period away from zero. */
    ghost predicate Sound()
      reads this`timers, this`all, all
    {
      && (forall i :: 0 <= i < |timers| ==> timers[i] in all)
      && (forall s, t :: s in all && t in all && s.id == t.id ==> s == t)
      && (forall t :: t in all ==> t.ms <= t.next < CLOCK_RANGE)
    }

    ghost predicate Valid()
      reads this, all, timers
    {
      && Sound() && Sorted()
      && (forall t :: t in all ==> (t in timers <==> t.cb.Some?))
    }

    /** The set is in the order of deadlines, and of addresses where they are equal. */
    lemma InOrder(i: nat, j: nat)
      requires Valid() && i < j < |timers|
      ensures timers[i].next < timers[j].next || (timers[i].next == timers[j].next && timers[i].id < timers[j].id)
    {
      assert timers[i].Before(timers[j]);
    }

    lemma FirstIsEarliest()
      requires Valid() && timers != []
      ensures forall i :: 0 <= i < |timers| ==> timers[0].next <= timers[i].next
    {
      forall i | 0 < i < |timers|
        ensures timers[0].next <= timers[i].next
      {
        InOrder(0, i);
      }
    }

    /** `m_timers.insert(t)`. */
    method Insert(t: Timer) returns (first: bool)
      requires Sound() && Sorted() && t in all && t !in timers
      modifies this`timers
      ensures Sound() && Sorted()
      ensures forall s :: s in timers <==> s == t || s in old(timers)
      ensures first <==> timers[0] == t
    {
      var i := 0;
      while i < |timers| && timers[i].Before(t)
        invariant i <= |timers|
        invariant forall j :: 0 <= j < i ==> timers[j].Before(t)
      {
        i := i + 1;
      }
      ghost var was := timers;
      timers := timers[..i] + [t] + timers[i..];
      first := i == 0;
      forall j, k | 0 <= j < k < |timers|
        ensures timers[j].Before(timers[k])
      {
        var a := if j < i then j else j - 1;
        var b := if k < i then k else k - 1;
        assert j != i ==> timers[j] == was[a];
        assert k != i ==> timers[k] == was[b];
        if i < |was| {
          assert t.Before(was[i]);
        }
      }
      assert timers[i] == t;
      assert forall s :: s in was ==> s in was[..i] + was[i..];
    }

    /** `m_timers.find(t)`, by the comparator alone: the first element not before `t`, if `t` is not before it either. */
    method Find(t: Timer) returns (i: nat)
      requires Sound() && Sorted() && t in all
      ensures i <= |timers|
      ensures if t in timers then i < |timers| && timers[i] == t else i == |timers|
    {
      i := 0;
      while i < |timers| && timers[i].Before(t)
        invariant i <= |timers|
        invariant forall j :: 0 <= j < i ==> timers[j].Before(t)
      {
        i := i + 1;
      }
      if i < |timers| && t.Before(timers[i]) {
        assert forall j :: i <= j < |timers| ==> t.Before(timers[j]);
        i := |timers|;
      }
    }

    /** `m_timers.erase(it)`. */
    method Erase(i: nat)
      requires Sound() && Sorted() && i < |timers|
      modifies this`timers
      ensures Sound() && Sorted() && timers == old(timers[..i] + timers[i + 1..])
      ensures forall s :: s in timers <==> s in old(timers) && s != old(timers[i])
    {
      ghost var was := timers;
      timers := timers[..i] + timers[i + 1..];
      forall s | s in was && s != was[i]
        ensures s in timers
      {
        var j :| 0 <= j < |was| && was[j] == s;
        assert timers[if j < i then j else j - 1] == s;
      }
    }

    /** The shared tail of adding, refreshing and resetting: insert, and say whether to wake the poller. */
    method InsertAndTell(t: Timer) returns (wake: bool)
      requires Sound() && Sorted() && t in all && t !in timers
      modifies this`timers, this`tickle
      ensures Sound() && Sorted()
      ensures forall s :: s in timers <==> s == t || s in old(timers)
      ensures wake <==> timers[0] == t && !old(tickle)
      ensures tickle == (old(tickle) || wake)
    {
      var first := Insert(t);
      wake := first && !tickle;
      if wake {
        tickle := true;
      }
    }

    /** `wake` is the call of `onTimerInsertedAtFront`. */
    method AddTimer(id: nat, ms: nat, cb: Callback, recurring: bool, now: nat) returns (t: Timer, wake: bool)
      requires Valid() && (forall s :: s in all ==> s.id != id) && now + ms < CLOCK_RANGE
      modifies this`timers, this`tickle, this`all
      ensures Valid() && fresh(t) && all == old(all) + {t}
      ensures t.next == now + ms && t.ms == ms && t.cb == Some(cb) && t.recurring == recurring && t.id == id
      ensures forall s :: s in timers <==> s == t || s in old(timers)
      ensures wake <==> timers[0] == t && !old(tickle)
      ensures tickle == (old(tickle) || wake)
    {
      t := new Timer(id, ms, cb, recurring, now);
      all := all + {t};
      wake := InsertAndTell(t);
    }

    /** `Timer::cancel`. */
    method Cancel(t: Timer) returns (done: bool)
      requires Valid() && t in all
      modifies this`timers, t`cb
      ensures Valid() && done == old(t.cb.Some?) && t.cb == None
      ensures forall s :: s in timers <==> s != t && s in old(timers)
    {
      if t.cb == None {
        return false;
      }
      t.cb := None;
      var it := Find(t);
      Erase(it);
      done := true;
    }

    /** `Timer::refresh`. */
    method Refresh(t: Timer, now: nat) returns (done: bool, wake: bool)
      requires Valid() && t in all && now + t.ms < CLOCK_RANGE
      modifies this`timers, this`tickle, t`next
      ensures Valid() && done == old(t.cb.Some?)
      ensures forall s :: s in timers <==> s in old(timers)
      ensures t.next == if done then now + t.ms else old(t.next)
      ensures wake <==> done && timers[0] == t && !old(tickle)
      ensures tickle == (old(tickle) || wake)
    {
      done, wake := false, false;
      if t.cb == None {
        return;
      }
      var it := Find(t);
      if it == |timers| {
        return;
      }
      Erase(it);
      t.next := t.ms + now;
      wake := InsertAndTell(t);
      done := true;
    }

    /** `Timer::reset`. Without `fromNow` the deadline moves by the change of period, and never below zero. */
    method Reset(t: Timer, ms: nat, fromNow: bool, now: nat) returns (done: bool, wake: bool)
      requires Valid() && t in all && (if fromNow then now else t.next - t.ms) + ms < CLOCK_RANGE
      modifies this`timers, this`tickle, t`next, t`ms
      ensures Valid() && done == (old(t.cb.Some?) || (ms == old(t.ms) && !fromNow))
      ensures forall s :: s in timers <==> s in old(timers)
      ensures var moved := old(t.cb.Some?) && !(ms == old(t.ms) && !fromNow);
              && t.ms == (if moved then ms else old(t.ms))
              && t.next == (if !moved then old(t.next) else if fromNow then now + ms else old(t.next) - old(t.ms) + ms)
              && (wake <==> moved && timers[0] == t && !old(tickle))
      ensures tickle == (old(tickle) || wake)
    {
      done, wake := false, false;
      if ms == t.ms && !fromNow {
        return true, false;
      }
      if t.cb == None {
        return;
      }
      var it := Find(t);
      if it == |timers| {
        return;
      }
      Erase(it);
      var start := if fromNow then now else t.next - t.ms;
      t.ms := ms;
      t.next := t.ms + start;
      wake := InsertAndTell(t);
      done := true;
    }

    /** The clock has gone back, by more than an hour, or on a clock that had not yet reached one hour. */
    predicate Rollover(now: nat)
      reads this`previousTime
    {
      now < previousTime && (previousTime < ROLLOVER_MS || previousTime - now > ROLLOVER_MS)
    }

    /** The test in unsigned 64-bit arithmetic, in which subtracting an hour from less than an hour wraps round. */
    method DetectClockRollover(now: nat) returns (rollover: bool)
      modifies this`previousTime
      ensures rollover == old(Rollover(now)) && previousTime == now
      ensures rollover <==> now < old(previousTime)
                            && (old(previousTime) < 3_600_000 || old(previousTime) - now > 3_600_000)
    {
      rollover := false;
      if now < previousTime
         && now < if previousTime >= ROLLOVER_MS then previousTime - ROLLOVER_MS
                  else CLOCK_RANGE + previousTime - ROLLOVER_MS {
        rollover := true;
      }
      previousTime := now;
    }

    /** Milliseconds until the earliest deadline, or `None` without timers; also lets the next insertion at
        the front wake the poller again. */
    method GetNextTime(now: nat) returns (wait: Option<nat>)
      requires Valid()
      modifies this`tickle
      ensures Valid() && !tickle
      ensures wait == None <==> timers == []
      ensures wait.Some? ==> wait.value == if now >= timers[0].next then 0 else timers[0].next - now
      ensures wait.Some? ==> forall t :: t in timers ==> t.next >= timers[0].next
    {
      tickle := false;
      if timers == [] {
        return None;
      }
      var first := timers[0];
      if now >= first.next {
        return Some(0);
      }
      return Some(first.next - now);
    }

    /** The first element after a probe with deadline `now` and address `probe`, or the end. */
    method UpperBound(now: nat, probe: nat) returns (k: nat)
      requires Sound() && Sorted()
      ensures k <= |timers|
      ensures forall i :: 0 <= i < |timers| ==> (i < k <==> Expired(timers[i], now, probe))
    {
      k := 0;
      while k < |timers| && Expired(timers[k], now, probe)
        invariant k <= |timers|
        invariant forall i :: 0 <= i < k ==> Expired(timers[i], now, probe)
      {
        k := k + 1;
      }
      if k < |timers| {
        assert forall i :: k < i < |timers| ==> timers[k].Before(timers[i]);
      }
    }

    /** `t` does not come after a probe with deadline `now` and address `probe`. */
    predicate Expired(t: Timer, now: nat, probe: nat)
      reads t`next
    {
      t.next < now || (t.next == now && t.id <= probe)
    }

    /** What a sweep does with one expired timer, already out of the set. */
    method Dispose(t: Timer, now: nat)
      requires Sound() && Sorted() && t in all && t !in timers && t.cb.Some? && now + t.ms < CLOCK_RANGE
      modifies this`timers, t`next, t`cb
      ensures Sound() && Sorted()
      ensures forall s :: s in timers <==> s in old(timers) || (s == t && t.recurring)
      ensures if t.recurring then t.next == now + t.ms && t.cb == old(t.cb) else t.next == old(t.next) && t.cb == None
    {
      if t.recurring {
        t.next := t.ms + now;
        var first := Insert(t);
      } else {
        t.cb := None;
      }
    }

    /** No deadline counted from `now` runs past the 64-bit clock. */
    ghost predicate RearmFits(now: nat)
      reads this`all, all
    {
      forall t :: t in all ==> now + t.ms < CLOCK_RANGE
    }

    /** Sweep: hand out the callbacks of the expired timers, which are `out`, in deadline order. The
        probe's address decides about those whose deadline is `now` itself. */
    method ListExpiredCb(now: nat, probe: nat) returns (vcb: seq<Callback>, ghost out: seq<Timer>)
      requires Valid() && RearmFits(now)
      modifies this`timers, this`previousTime, all
      ensures Valid()
      ensures out <= old(timers) && |vcb| == |out|
      ensures forall i :: 0 <= i < |out| ==> old(out[i].cb) == Some(vcb[i])
      ensures forall i :: 0 <= i < |old(timers)| ==>
                (i < |out| <==> old(Rollover(now))
                                || old(timers[i].next) < now || (old(timers[i].next) == now && old(timers)[i].id <= probe))
      ensures forall t :: t in all ==> t.ms == old(t.ms)
      ensures forall t :: t in all && t !in out ==>
                t.next == old(t.next) && t.cb == old(t.cb) && (t in timers <==> t in old(timers))
      ensures forall t :: t in out ==>
                if t.recurring then t.next == now + t.ms && t.cb == old(t.cb) && t in timers
                else t.next == old(t.next) && t.cb == None && t !in timers
      ensures previousTime == if old(timers) == [] then old(previousTime) else now
    {
      hide TimerManager.Sorted, Timer.Before, TimerManager.Rollover;
      vcb, out := [], [];
      if timers == [] {
        return;
      }
      var rollover := DetectClockRollover(now);
      if !rollover && timers[0].next > now {
        FirstIsEarliest();
        return;
      }
      var k := |timers|;
      if !rollover {
        k := UpperBound(now, probe);
      }
      var expired := timers[..k];
      out := expired;
      vcb := Drain(expired, now, k);
    }

    /** Take the first `k` timers out of the set, then dispose of them one by one. */
    method Drain(expired: seq<Timer>, now: nat, ghost k: nat) returns (vcb: seq<Callback>)
      requires Valid() && RearmFits(now) && k <= |timers| && expired == timers[..k]
      modifies this`timers, all
      ensures Valid() && |vcb| == k
      ensures forall i :: 0 <= i < k ==> old(expired[i].cb) == Some(vcb[i])
      ensures forall t :: t in all ==> t.ms == old(t.ms)
      ensures forall t :: t in all && t !in expired ==>
                t.next == old(t.next) && t.cb == old(t.cb) && (t in timers <==> t in old(timers))
      ensures forall t :: t in expired ==>
                if t.recurring then t.next == now + t.ms && t.cb == old(t.cb) && t in timers
                else t.next == old(t.next) && t.cb == None && t !in timers
    {
      ghost var was := timers;
      forall i, j | 0 <= i < j < |was|
        ensures was[i] != was[j]
      {
        assert was[i].Before(was[j]);
      }
      timers := timers[|expired|..];
      assert forall t :: t in was <==> t in expired || t in timers;
      vcb := DisposeAll(expired, now);
    }

    method DisposeAll(expired: seq<Timer>, now: nat) returns (vcb: seq<Callback>)
      requires Sound() && Sorted()
      requires forall i, j :: 0 <= i < j < |expired| ==> expired[i] != expired[j]
      requires forall i :: 0 <= i < |expired| ==> 
                  expired[i] in all && expired[i] !in timers && expired[i].cb.Some? && now + expired[i].ms < CLOCK_RANGE
      modifies this`timers, expired`next, expired`cb
      ensures Sound() && Sorted() && |vcb| == |expired|
      ensures forall i :: 0 <= i < |expired| ==> old(expired[i].cb) == Some(vcb[i])
      ensures forall t :: t in timers <==> t in old(timers) || (t in expired && t.recurring)
      ensures forall i :: 0 <= i < |expired| ==> Disposed(expired[i], now, old(expired[i].next), old(expired[i].cb))
    {
      vcb := [];
      var i := 0;
      while i < |expired|
        invariant i <= |expired| && |vcb| == i
        invariant Sound() && Sorted()
        invariant forall j :: 0 <= j < i ==> old(expired[j].cb) == Some(vcb[j])
        invariant forall j :: 0 <= j < i ==> Disposed(expired[j], now, old(expired[j].next), old(expired[j].cb))
        invariant forall j :: i <= j < |expired| ==>
                    expired[j].next == old(expired[j].next) && expired[j].cb == old(expired[j].cb)
        invariant forall t :: t in timers <==> t in old(timers) || (t in expired[..i] && t.recurring)
      {
        var t := expired[i];
        vcb := vcb + [t.cb.value];
        Dispose(t, now);
        assert expired[..i + 1] == expired[..i] + [t];
        i := i + 1;
      }
      assert expired[..i] == expired;
    }

    /** `t` after a sweep at `now`, before which it had deadline `next` and callback `cb`. */
    ghost predicate Disposed(t: Timer, now: nat, next: nat, cb: Option<Callback>)
      reads t`next, t`cb, t`ms
    {
      if t.recurring then t.next == now + t.ms && t.cb == cb else t.next == next && t.cb == None
    }
  }
}
