/**
 * `to_future`: subscribes to a source and settles an asyncio future with the
 * source's last value, with the source's error, or with "sequence contains no
 * elements" when the source completes empty.  The closure variables
 * `has_value` and `last_value` are updated in place by the callbacks, and the
 * future is settled in place; a future the consumer cancelled is never
 * settled.
 */
module ToFuture {
  import opened Signals

  /** What reaches one subscription: a source signal, or the consumer cancelling the future. */
  datatype Event<T> = Signal(n: Notification<T>) | Cancellation

  /** The closure state of one subscription: `has_value`, `last_value` and the future it settles. */
  datatype Closure<T> = Closure(hasValue: bool, lastValue: Option<T>, future: Future<T>)

  /** asyncio raises InvalidStateError when a result or an exception is set on a future that is already done. */
  predicate Refuses<T>(f: Future<T>) {
    f.Done() && !f.Cancelled?
  }

  /** A pending future with a value seen always has that value at hand. */
  ghost predicate Coherent<T>(c: Closure<T>) {
    c.future.Pending? && c.hasValue ==> c.lastValue.Some?
  }

  /** The effect of one event on the closure, as the callbacks perform it. */
  function Step<T>(c: Closure<T>, e: Event<T>): (r: Closure<T>)
    requires Coherent(c)
    ensures Coherent(r)
    ensures c.future.Done() ==> r.future == c.future
    ensures r.hasValue == (c.hasValue || (e.Signal? && e.n.Next?))
  {
    match e
    case Cancellation =>
      c.(future := if c.future.Pending? then Cancelled else c.future)
    case Signal(Next(v)) =>
      c.(hasValue := true, lastValue := Some(v))
    case Signal(Error(err)) =>
      // on_error: set_exception unless cancelled; on a done future it raises and changes nothing
      c.(future := if c.future.Pending? then Failed(err) else c.future)
    case Signal(Completed) =>
      if Refuses(c.future) then
        c        // set_result/set_exception raises before last_value is cleared
      else if c.future.Cancelled? then
        c.(lastValue := None)
      else if c.hasValue then
        c.(future := Resolved(c.lastValue.value), lastValue := None)
      else
        c.(future := Failed(SequenceContainsNoElements), lastValue := None)
  }

  /** The closure after a subscription that started on future `f0` has seen `log`. */
  function After<T>(f0: Future<T>, log: seq<Event<T>>): (c: Closure<T>)
    ensures Coherent(c)
    decreases |log|
  {
    if log == [] then Closure(false, None, f0)
    else Step(After(f0, log[..|log| - 1]), log[|log| - 1])
  }

  /** The source values carried by the next-signals of `log`. */
  function SignalValues<T>(log: seq<Event<T>>): (vs: seq<T>)
    decreases |log|
  {
    if log == [] then []
    else if log[|log| - 1].Signal? && log[|log| - 1].n.Next? then
      SignalValues(log[..|log| - 1]) + [log[|log| - 1].n.value]
    else SignalValues(log[..|log| - 1])
  }

  /** A source stream as it reaches the subscription, with no cancellation in between. */
  function Delivered<T>(s: Stream<T>): (log: seq<Event<T>>)
    ensures |log| == |s| && forall i :: 0 <= i < |s| ==> log[i] == Signal(s[i])
  {
    seq(|s|, i requires 0 <= i < |s| => Signal(s[i]))
  }

  /**
   * What the future becomes when a pending future is handed a well-formed
   * stream: pending until a terminal; then the error, or the last value, or
   * "no elements".
   */
  function Outcome<T>(s: Stream<T>): Future<T> {
    if s == [] then Pending
    else
      match s[|s| - 1]
      case Next(_) => Pending
      case Error(e) => Failed(e)
      case Completed =>
        var vs := Values(s);
        if vs == [] then Failed(SequenceContainsNoElements) else Resolved(vs[|vs| - 1])
  }

  lemma {:induction false} AfterSnoc<T>(f0: Future<T>, log: seq<Event<T>>, e: Event<T>)
    ensures After(f0, log + [e]) == Step(After(f0, log), e)
  {
    assert (log + [e])[..|log|] == log;
  }

  /** The effect of an error, in the closure's terms. */
  lemma AfterError<T>(f0: Future<T>, log: seq<Event<T>>, err: Exception)
    ensures var c := After(f0, log);
      After(f0, log + [Signal(Error(err))]) == c.(future := if c.future.Pending? then Failed(err) else c.future)
  {
    AfterSnoc(f0, log, Signal(Error(err)));
  }

  lemma {:induction false} SignalValuesSnoc<T>(log: seq<Event<T>>, e: Event<T>)
    ensures SignalValues(log + [e]) == SignalValues(log) + (if e.Signal? && e.n.Next? then [e.n.value] else [])
  {
    assert (log + [e])[..|log|] == log;
  }

  /** `has_value` is set exactly when some value has arrived, and nothing resets it. */
  lemma {:induction false} HasValueIffSomeValue<T>(f0: Future<T>, log: seq<Event<T>>)
    ensures After(f0, log).hasValue <==> SignalValues(log) != []
    decreases |log|
  {
    if log != [] {
      var init, e := log[..|log| - 1], log[|log| - 1];
      assert log == init + [e];
      HasValueIffSomeValue(f0, init);
      AfterSnoc(f0, init, e);
      SignalValuesSnoc(init, e);
    }
  }

  /** Until a completion is handled, `last_value` holds the most recent value. */
  lemma {:induction false} LastValueIsMostRecent<T>(f0: Future<T>, log: seq<Event<T>>)
    requires forall i :: 0 <= i < |log| ==> log[i] != Signal(Completed)
    ensures var vs := SignalValues(log);
      After(f0, log).lastValue == if vs == [] then None else Some(vs[|vs| - 1])
    decreases |log|
  {
    if log != [] {
      var init, e := log[..|log| - 1], log[|log| - 1];
      assert log == init + [e];
      LastValueIsMostRecent(f0, init);
      AfterSnoc(f0, init, e);
      SignalValuesSnoc(init, e);
    }
  }

  /** A handled completion clears `last_value`. */
  lemma ClearsLastValue<T>(f0: Future<T>, log: seq<Event<T>>)
    requires !Refuses(After(f0, log).future)
    ensures After(f0, log + [Signal(Completed)]).lastValue == None
  {
    AfterSnoc(f0, log, Signal(Completed));
  }

  /** Once done (settled or cancelled), the future never changes again. */
  lemma {:induction false} DoneIsFinal<T>(f0: Future<T>, log: seq<Event<T>>, more: seq<Event<T>>)
    requires After(f0, log).future.Done()
    ensures After(f0, log + more).future == After(f0, log).future
    decreases |more|
  {
    if more != [] {
      var init, e := more[..|more| - 1], more[|more| - 1];
      assert log + more == (log + init) + [e];
      DoneIsFinal(f0, log, init);
      AfterSnoc(f0, log + init, e);
    } else {
      assert log + more == log;
    }
  }

  /** In particular a cancelled future is settled neither by an error nor by completion. */
  lemma CancelledIsNeverSettled<T>(f0: Future<T>, log: seq<Event<T>>, more: seq<Event<T>>)
    requires After(f0, log).future.Cancelled?
    ensures After(f0, log + more).future == Cancelled
  {
    DoneIsFinal(f0, log, more);
  }

  lemma {:induction false} DeliveredSnoc<T>(s: Stream<T>, n: Notification<T>)
    ensures Delivered(s + [n]) == Delivered(s) + [Signal(n)]
  {
  }

  lemma {:induction false} SignalValuesAreValues<T>(s: Stream<T>)
    ensures SignalValues(Delivered(s)) == Values(s)
    decreases |s|
  {
    if s != [] {
      var init, n := s[..|s| - 1], s[|s| - 1];
      assert s == init + [n];
      SignalValuesAreValues(init);
      DeliveredSnoc(init, n);
      SignalValuesSnoc(Delivered(init), Signal(n));
      ValuesAppend(init, [n]);
      assert Values([n]) == if n.Next? then [n.value] else [] by {
        assert [n][1..] == [];
      }
    }
  }

  /**
   * A pending future handed a well-formed source stream ends as `Outcome`:
   * resolved with the last value after a completion that followed values,
   * failed with "no elements" after an empty completion, failed with the
   * source's error after an error, and still pending otherwise.
   */
  lemma SettlesWithOutcome<T>(s: Stream<T>)
    requires WellFormed(s)
    ensures After(Pending, Delivered(s)).future == Outcome(s)
  {
    if s != [] {
      var init, n := s[..|s| - 1], s[|s| - 1];
      assert s == init + [n];
      assert forall i :: 0 <= i < |init| ==> init[i].Next?;
      SettlesOnLastSignal(init, n);
    }
  }

  lemma SettlesOnLastSignal<T>(init: Stream<T>, n: Notification<T>)
    requires forall i :: 0 <= i < |init| ==> init[i].Next?
    ensures After(Pending, Delivered(init + [n])).future == Outcome(init + [n])
  {
    DeliveredSnoc(init, n);
    AfterSnoc(Pending, Delivered(init), Signal(n));
    ClosureBeforeTerminal(init);
    OutcomeSnoc(init, n);
  }

  lemma OutcomeSnoc<T>(init: Stream<T>, n: Notification<T>)
    ensures Outcome(init + [n]) == match n
      case Next(_) => Pending
      case Error(e) => Failed(e)
      case Completed =>
        var vs := Values(init);
        if vs == [] then Failed(SequenceContainsNoElements) else Resolved(vs[|vs| - 1])
  {
    var last: Stream<T> := [n];
    ValuesAppend(init, last);
    assert last[1..] == [];
  }

  /** Before any terminal, the closure holds the values seen so far and the future is still pending. */
  lemma ClosureBeforeTerminal<T>(s: Stream<T>)
    requires forall i :: 0 <= i < |s| ==> s[i].Next?
    ensures var vs := Values(s);
      After(Pending, Delivered(s)) == Closure(vs != [], if vs == [] then None else Some(vs[|vs| - 1]), Pending)
  {
    var log := Delivered(s);
    assert forall i :: 0 <= i < |log| ==> log[i] != Signal(Completed);
    LastValueIsMostRecent(Pending, log);
    HasValueIffSomeValue(Pending, log);
    SignalValuesAreValues(s);
    NoTerminalStaysPending(s);
  }

  /** Values alone never settle a pending future. */
  lemma {:induction false} NoTerminalStaysPending<T>(s: Stream<T>)
    requires forall i :: 0 <= i < |s| ==> s[i].Next?
    ensures After(Pending, Delivered(s)).future == Pending
    decreases |s|
  {
    if s != [] {
      var init, n := s[..|s| - 1], s[|s| - 1];
      assert s == init + [n];
      DeliveredSnoc(init, n);
      AfterSnoc(Pending, Delivered(init), Signal(n));
      NoTerminalStaysPending(init);
    }
  }

  /**
   * One `to_future` subscription.  The future is created once by the
   * operator and shared by all its subscriptions, so a subscription starts
   * on whatever state that future is in.
   */
  class ToFutureSubscription<T> {
    var hasValue: bool
    var lastValue: Option<T>
    var future: Future<T>
    var disposed: bool
    ghost const initial: Future<T>
    ghost var log: seq<Event<T>>

    ghost predicate Valid()
      reads this
    {
      Closure(hasValue, lastValue, future) == After(initial, log)
    }

    constructor (future: Future<T>)
      ensures Valid() && log == [] && initial == future
      ensures !hasValue && lastValue == None && this.future == future && !disposed
    {
      hasValue := false;
      lastValue := None;
      this.future := future;
      disposed := false;
      initial := future;
      log := [];
    }

    /** on_next: remember the value. */
    method OnNext(v: T)
      requires Valid()
      modifies this
      ensures Valid() && log == old(log) + [Signal(Next(v))]
      ensures hasValue && lastValue == Some(v)
      ensures future == old(future) && disposed == old(disposed)
    {
      AfterSnoc(initial, log, Signal(Next(v)));
      lastValue := Some(v);
      hasValue := true;
      log := log + [Signal(Next(v))];
    }

    /** on_error: fail the future unless it was cancelled; `raised` reports asyncio's InvalidStateError. */
    method OnError(err: Exception) returns (raised: bool)
      requires Valid()
      modifies this
      ensures Valid() && log == old(log) + [Signal(Error(err))]
      ensures raised == Refuses(old(future))
      ensures future == if old(future).Pending? then Failed(err) else old(future)
      ensures hasValue == old(hasValue) && lastValue == old(lastValue) && disposed == old(disposed)
    {
      ghost var c := After(initial, log);
      AfterError(initial, log, err);
      raised := false;
      if !future.Cancelled? {
        if future.Pending? {
          future := Failed(err);
        } else {
          raised := true;
        }
      }
      log := log + [Signal(Error(err))];
      assert After(initial, log) == c.(future := future);
    }

    /** on_completed: settle with the last value or with "no elements" unless cancelled, then clear `last_value`. */
    method OnCompleted() returns (raised: bool)
      requires Valid()
      modifies this
      ensures Valid() && log == old(log) + [Signal(Completed)]
      ensures raised == Refuses(old(future))
      ensures old(future).Pending? && old(hasValue) ==> future == Resolved(old(lastValue).value)
      ensures old(future).Pending? && !old(hasValue) ==> future == Failed(SequenceContainsNoElements)
      ensures !old(future).Pending? ==> future == old(future)
      ensures lastValue == if raised then old(lastValue) else None
      ensures hasValue == old(hasValue) && disposed == old(disposed)
    {
      AfterSnoc(initial, log, Signal(Completed));
      raised := false;
      if !future.Cancelled? {
        if future.Pending? {
          if hasValue {
            future := Resolved(lastValue.value);
          } else {
            future := Failed(SequenceContainsNoElements);
          }
        } else {
          raised := true;
        }
      }
      if !raised {
        lastValue := None;
      }
      log := log + [Signal(Completed)];
    }

    /** The consumer cancels the future; a done future ignores it. */
    method Cancel() returns (cancelled: bool)
      requires Valid()
      modifies this
      ensures Valid() && log == old(log) + [Cancellation]
      ensures cancelled == old(future).Pending?
      ensures future == if cancelled then Cancelled else old(future)
      ensures hasValue == old(hasValue) && lastValue == old(lastValue) && disposed == old(disposed)
    {
      AfterSnoc(initial, log, Cancellation);
      cancelled := future.Pending?;
      if cancelled {
        future := Cancelled;
      }
      log := log + [Cancellation];
    }

    /** The done callback registered on the future disposes the source subscription. */
    method DoneCallback()
      requires Valid() && future.Done()
      modifies this
      ensures Valid() && disposed
      ensures hasValue == old(hasValue) && lastValue == old(lastValue) && future == old(future) && log == old(log)
    {
      disposed := true;
    }
  }
}
