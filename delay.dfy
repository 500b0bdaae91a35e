/**
 * The time-shift operator `delay(duetime)`: each subscription keeps a FIFO
 * queue of (notification, release instant) entries, an exception slot, the
 * flags `active` (a flush is scheduled) and `running` (a flush is under way)
 * and one scheduled flush. Time is the virtual clock of the scheduler, an
 * integer; every locked region of the source is one atomic method here.
 */
module Delay {
  import opened Signals

  /** The `duetime` argument: a relative span or an absolute instant. */
  datatype DueTime = Relative(span: int) | Absolute(instant: int)

  /** The offset a subscription uses: a span as given, an instant turned into its distance from `now`. */
  function Normalise(dt: DueTime, now: int): (d: int)
    ensures dt.Relative? ==> d == dt.span
    ensures dt.Absolute? ==> now + d == dt.instant
  {
    match dt
    case Relative(span) => span
    case Absolute(instant) => instant - now
  }

  /** A queued notification and the instant it is due (the source's `Timestamp` record). */
  datatype Entry<T> = Entry(n: Notification<T>, timestamp: int)

  ghost predicate NonDecreasing<T>(q: seq<Entry<T>>) {
    forall i, j :: 0 <= i < j < |q| ==> q[i].timestamp <= q[j].timestamp
  }

  /** How many head entries of `q` are due at `now`: the flush loop stops at the first one that is not. */
  function DueCount<T>(q: seq<Entry<T>>, now: int): (k: nat)
    ensures k <= |q|
    ensures forall i :: 0 <= i < k ==> q[i].timestamp <= now
    ensures k < |q| ==> q[k].timestamp > now
  {
    if q != [] && q[0].timestamp <= now then 1 + DueCount(q[1..], now) else 0
  }

  /** Any cut with every entry before it due and the entry at it not due is the one DueCount finds. */
  lemma {:induction false} DueCountUnique<T>(q: seq<Entry<T>>, now: int, j: nat)
    requires j <= |q|
    requires forall i :: 0 <= i < j ==> q[i].timestamp <= now
    requires j < |q| ==> q[j].timestamp > now
    ensures j == DueCount(q, now)
  {
    if j > 0 {
      assert q[0].timestamp <= now;
      forall i | 0 <= i < j - 1
        ensures q[1..][i].timestamp <= now
      {
        assert q[1..][i] == q[i + 1];
      }
      DueCountUnique(q[1..], now, j - 1);
    }
  }

  /** On a queue kept in release order, the flush takes exactly the entries whose release instant has come. */
  lemma DueCountIsExactlyTheReleased<T>(q: seq<Entry<T>>, now: int)
    requires NonDecreasing(q)
    ensures forall i :: 0 <= i < |q| ==> (i < DueCount(q, now) <==> q[i].timestamp <= now)
  {
    var k := DueCount(q, now);
    forall i | k <= i < |q|
      ensures q[i].timestamp > now
    {
      assert q[k].timestamp <= q[i].timestamp;
    }
  }

  /** Dropping a head keeps the queue ordered and bounded. */
  lemma SuffixStaysOrdered<T>(q: seq<Entry<T>>, k: nat, bound: int)
    requires k <= |q|
    ensures (forall i :: 0 <= i < |q| ==> !q[i].n.Error?) ==> (forall i :: 0 <= i < |q[k..]| ==> !q[k..][i].n.Error?)
    ensures NonDecreasing(q) ==> NonDecreasing(q[k..])
    ensures (forall i :: 0 <= i < |q| ==> q[i].timestamp <= bound) ==> (forall i :: 0 <= i < |q[k..]| ==> q[k..][i].timestamp <= bound)
  {
    assert forall i :: 0 <= i < |q[k..]| ==> q[k..][i] == q[k + i];
  }

  /** The observer calls a flush at `now` makes for the entries it pops, in queue order. */
  function Deliver<T>(es: seq<Entry<T>>, now: int): (r: seq<Timed<Notification<T>>>)
    ensures |r| == |es|
    ensures forall i :: 0 <= i < |es| ==> r[i] == Timed(now, es[i].n)
  {
    if es == [] then [] else [Timed(now, es[0].n)] + Deliver(es[1..], now)
  }

  /** The per-subscription state of `observable_delay_timespan`. */
  class DelaySubscription<T> {
    const duetime: int                       // normalised once, at subscribe
    var queue: seq<Entry<T>>
    var exception: Option<Exception>
    var active: bool
    var running: bool
    var pending: Option<int>                 // due instant of the flush the serial slot holds
    var sourceSubscribed: bool               // the materialized, timestamped source is subscribed
    var disposed: bool
    var clock: int                           // the scheduler's `now` at the latest step
    var out: seq<Timed<Notification<T>>>     // what the observer has received, and when

    /** No error yet: the queue holds values and completions in release order, and a flush is pending exactly while it is non-empty. */
    ghost predicate Ordered()
      reads this
    {
      && (forall i :: 0 <= i < |queue| ==> !queue[i].n.Error?)
      && NonDecreasing(queue)
      && (forall i :: 0 <= i < |queue| ==> queue[i].timestamp <= clock + duetime)
      && (!disposed ==> (queue != [] <==> active) && (active <==> pending.Some?))
      && (pending.Some? ==> queue != [] && pending.value == queue[0].timestamp)
    }

    ghost predicate Valid()
      reads this
    {
      && !running
      && (pending.Some? ==> active)
      && (disposed <==> !sourceSubscribed)
      && (disposed ==> pending.None?)
      && (exception.Some? ==> queue != [] && queue[0].n == Error(exception.value))
      && (exception.None? ==> Ordered())
    }

    ghost predicate Initial()
      reads this
    {
      queue == [] && exception.None? && !active && !running && pending.None?
      && sourceSubscribed && !disposed && out == []
    }

    constructor (duetime: int, now: int)
      ensures Valid() && Initial() && this.duetime == duetime && clock == now
    {
      this.duetime := duetime;
      queue := [];
      exception := None;
      active := false;
      running := false;
      pending := None;
      sourceSubscribed := true;
      disposed := false;
      clock := now;
      out := [];
    }

    /** `on_next` of the timestamped, materialized source: notification `n` arriving at `ts`. */
    method OnNotification(n: Notification<T>, ts: int)
      requires Valid() && !disposed && clock <= ts
      modifies this
      ensures Valid() && !disposed && clock == ts
      ensures old(pending).Some? ==> pending == old(pending)
      ensures n.Error? ==>
        && queue == [Entry(n, ts)] && exception == Some(n.error)
        && active == old(active) && pending == old(pending)
        && out == old(out) + [Timed(ts, n)]
      ensures !n.Error? ==>
        && queue == old(queue) + [Entry(n, ts + duetime)]
        && exception == old(exception) && active
        && (old(active) ==> pending == old(pending) && out == old(out))
        && (!old(active) && exception.Some? ==>
              pending == old(pending) && out == old(out) + [Timed(ts, Error(exception.value))])
        && (!old(active) && exception.None? ==> pending == Some(ts + duetime) && out == old(out))
    {
      clock := ts;
      var shouldRun := false;
      if n.Error? {
        queue := [Entry(n, ts)];
        exception := Some(n.error);
        shouldRun := !running;
      } else {
        queue := queue + [Entry(n, ts + duetime)];
        shouldRun := !active;
        active := true;
      }
      if shouldRun {
        match exception
        case Some(e) =>
          out := out + [Timed(ts, Error(e))];
        case None =>
          // a fresh assignment slot replaces the finished one; the flush is due `duetime` from now
          pending := Some(ts + duetime);
      }
    }

    /** The scheduled `action`, run by the scheduler at `now`. */
    method Flush(now: int)
      requires Valid() && !disposed && pending.Some? && pending.value <= now && clock <= now
      modifies this
      ensures Valid() && !disposed && clock == now && exception == old(exception)
      ensures old(exception).Some? ==>
        queue == old(queue) && active == old(active) && pending.None? && out == old(out)
      ensures old(exception).None? ==>
        var k := DueCount(old(queue), now);
        && k > 0
        && queue == old(queue)[k..]
        && out == old(out) + Deliver(old(queue)[..k], now)
        && (queue == [] ==> !active && pending.None?)
        && (queue != [] ==> active && pending == Some(now + (if queue[0].timestamp - now > 0 then queue[0].timestamp - now else 0)))
      ensures old(exception).None? && now == old(pending).value ==>
        forall i :: 0 <= i < DueCount(old(queue), now) ==> old(queue)[i].timestamp == now
    {
      clock := now;
      pending := None;
      if exception.Some? {
        return;
      }
      running := true;
      ghost var k := PopDue(now);
      SuffixStaysOrdered(old(queue), k, duetime + now);
      FinishFlush(now);
    }

    /** The end of `action`: reschedule for the new head, or go idle, then leave the lock. */
    method FinishFlush(now: int)
      requires running && !disposed && sourceSubscribed && clock == now && pending.None? && exception.None?
      requires forall i :: 0 <= i < |queue| ==> !queue[i].n.Error?
      requires NonDecreasing(queue) && forall i :: 0 <= i < |queue| ==> queue[i].timestamp <= clock + duetime
      requires active && (queue != [] ==> queue[0].timestamp > now)
      modifies this
      ensures Valid() && !disposed && clock == now && exception == old(exception)
      ensures queue == old(queue) && out == old(out)
      ensures queue == [] ==> !active && pending.None?
      ensures queue != [] ==> active && pending == Some(now + (if queue[0].timestamp - now > 0 then queue[0].timestamp - now else 0))
    {
      var shouldContinue := false;
      var recurse := 0;
      if queue != [] {
        shouldContinue := true;
        var diff := queue[0].timestamp - now;
        recurse := if diff > 0 then diff else 0;
      } else {
        active := false;
      }
      var ex := exception;
      running := false;
      // the exception seen at the end of the flush would be reported after leaving the lock;
      // with every locked region atomic none can have arrived since the flush began
      match ex
      case Some(_) =>
        assert false;
      case None =>
        if shouldContinue {
          pending := Some(now + recurse);
        }
    }

    /** The `while True` loop: pop and deliver every due head entry, in FIFO order. */
    method PopDue(now: int) returns (ghost k: nat)
      modifies this
      ensures k == DueCount(old(queue), now)
      ensures queue == old(queue)[k..] && out == old(out) + Deliver(old(queue)[..k], now)
      ensures exception == old(exception) && active == old(active) && running == old(running)
      ensures pending == old(pending) && clock == old(clock) && disposed == old(disposed)
      ensures sourceSubscribed == old(sourceSubscribed)
    {
      ghost var q0 := queue;
      ghost var out0 := out;
      k := 0;
      while queue != [] && queue[0].timestamp <= now
        invariant 0 <= k <= |q0| && queue == q0[k..]
        invariant forall i :: 0 <= i < k ==> q0[i].timestamp <= now
        invariant out == out0 + Deliver(q0[..k], now)
        invariant exception == old(exception) && active == old(active) && running == old(running)
        invariant pending == old(pending) && clock == old(clock) && disposed == old(disposed)
        invariant sourceSubscribed == old(sourceSubscribed)
        decreases |queue|
      {
        var head := queue[0];
        queue := queue[1..];
        out := out + [Timed(now, head.n)];
        assert q0[..k + 1] == q0[..k] + [q0[k]];
        k := k + 1;
      }
      DueCountUnique(q0, now, k);
    }

    /** Disposing the composite: the source subscription and the slot holding the pending flush. */
    method Dispose()
      requires Valid()
      modifies this
      ensures Valid() && disposed && !sourceSubscribed && pending.None?
      ensures queue == old(queue) && exception == old(exception) && active == old(active)
      ensures out == old(out) && clock == old(clock)
    {
      sourceSubscribed := false;
      pending := None;
      disposed := true;
    }
  }

  /**
   * The observable `observable_delay_timespan(source, duetime)` returns. Its
   * subscribe function captures the `duetime` parameter: one cell, shared by
   * every subscription to this observable. Each `delay(source)` call builds a
   * new one, so the duetime given to `delay` itself is never rewritten.
   */
  class DelayedObservable {
    var duetime: DueTime

    constructor (duetime: DueTime)
      ensures this.duetime == duetime
    {
      this.duetime := duetime;
    }

    /** `subscribe` as written: `nonlocal duetime` stores the normalised offset back into the shared cell. */
    method SubscribeAsWritten<T>(now: int) returns (s: DelaySubscription<T>)
      modifies this
      ensures fresh(s) && s.Valid() && s.Initial() && s.clock == now
      ensures s.duetime == Normalise(old(duetime), now)
      ensures duetime == Relative(s.duetime)
    {
      var d := Normalise(duetime, now);
      duetime := Relative(d);
      s := new DelaySubscription(d, now);
    }

    /** `subscribe` with the offset kept local to the subscription. */
    method Subscribe<T>(now: int) returns (s: DelaySubscription<T>)
      ensures fresh(s) && s.Valid() && s.Initial() && s.clock == now
      ensures s.duetime == Normalise(duetime, now)
    {
      s := new DelaySubscription(Normalise(duetime, now), now);
    }
  }

  /** Two subscriptions, at 100 and at 200, to a delay until instant 300, as written: both use offset 200. */
  method NonlocalDuetimeExample() returns (first: int, second: int)
    ensures first == 200 && second == 200
  {
    var op := new DelayedObservable(Absolute(300));
    var s1: DelaySubscription<int> := op.SubscribeAsWritten(100);
    var s2: DelaySubscription<int> := op.SubscribeAsWritten(200);
    first, second := s1.duetime, s2.duetime;
  }

  /** The same two subscriptions with a per-subscription offset: each releases at instant 300. */
  method IndependentDuetimeExample() returns (first: int, second: int)
    ensures first == 200 && second == 100
  {
    var op := new DelayedObservable(Absolute(300));
    var s1: DelaySubscription<int> := op.Subscribe(100);
    var s2: DelaySubscription<int> := op.Subscribe(200);
    first, second := s1.duetime, s2.duetime;
  }

  /**
   * A source that emits 1 at 50 and 2 at 70 and completes at 110, delayed by
   * 100, with each flush run when it falls due: every signal reaches the
   * observer exactly 100 later, in its original order, and nothing stays queued.
   */
  method ShiftsEverySignal() returns (out: seq<Timed<Notification<int>>>, left: nat)
    ensures out == [Timed(150, Next(1)), Timed(170, Next(2)), Timed(210, Completed)]
    ensures left == 0
  {
    var s := new DelaySubscription<int>(100, 0);
    s.OnNotification(Next(1), 50);
    s.OnNotification(Next(2), 70);
    s.OnNotification(Completed, 110);
    s.Flush(150);
    s.Flush(170);
    s.Flush(210);
    out, left := s.out, |s.queue|;
  }
}
