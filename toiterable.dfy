/**
 * `to_iterable`: every subscription collects the source's values in a queue
 * of its own and, when the source completes, emits the whole queue as one
 * value followed by completion.  A source error is forwarded as it is, with
 * nothing collected so far emitted.
 */
module ToIterable {
  import opened Signals

  /** The values collected since the last completion the subscription handled. */
  function Queued<T>(received: Stream<T>): seq<T>
    decreases |received|
  {
    if received == [] then []
    else
      var prior := received[..|received| - 1];
      match received[|received| - 1]
      case Next(v) => Queued(prior) + [v]
      case Error(_) => Queued(prior)
      case Completed => []
  }

  /** What the observer has been handed after the source delivered `received`. */
  function Emitted<T>(received: Stream<T>): Stream<seq<T>>
    decreases |received|
  {
    if received == [] then []
    else
      var prior := received[..|received| - 1];
      match received[|received| - 1]
      case Next(_) => Emitted(prior)
      case Error(e) => Emitted(prior) + [Error(e)]
      case Completed => Emitted(prior) + [Next(Queued(prior)), Completed]
  }

  lemma {:induction false} Snoc<T>(received: Stream<T>, n: Notification<T>)
    ensures Queued(received + [n]) == (match n case Next(v) => Queued(received) + [v] case Error(_) => Queued(received) case Completed => [])
    ensures Emitted(received + [n]) == (match n
      case Next(_) => Emitted(received)
      case Error(e) => Emitted(received) + [Error(e)]
      case Completed => Emitted(received) + [Next(Queued(received)), Completed])
  {
    assert (received + [n])[..|received|] == received;
  }

  /** While only values arrive, the queue holds all of them in arrival order and nothing is emitted. */
  lemma {:induction false} CollectsInOrder<T>(s: Stream<T>)
    requires forall i :: 0 <= i < |s| ==> s[i].Next?
    ensures Queued(s) == Values(s) && Emitted(s) == []
    decreases |s|
  {
    if s != [] {
      var init, n := s[..|s| - 1], s[|s| - 1];
      assert s == init + [n];
      CollectsInOrder(init);
      Snoc(init, n);
      ValuesAppend(init, [n]);
      assert [n][1..] == [];
    }
  }

  /**
   * A well-formed source that completes yields exactly one value holding
   * every source value, then completion, and the queue is empty again.
   */
  lemma EmitsOnceOnCompletion<T>(s: Stream<T>)
    requires WellFormed(s) && s != [] && s[|s| - 1] == Completed
    ensures Emitted(s) == [Next(Values(s)), Completed]
    ensures Queued(s) == []
  {
    var init := s[..|s| - 1];
    assert s == init + [Completed];
    assert forall i :: 0 <= i < |init| ==> init[i].Next?;
    CompletionAfterValues(init);
  }

  lemma CompletionAfterValues<T>(init: Stream<T>)
    requires forall i :: 0 <= i < |init| ==> init[i].Next?
    ensures Emitted(init + [Completed]) == [Next(Values(init + [Completed])), Completed]
    ensures Queued(init + [Completed]) == []
  {
    CollectsInOrder(init);
    Snoc(init, Completed);
    ValuesOfCompletion(init);
  }

  lemma ValuesOfCompletion<T>(init: Stream<T>)
    ensures Values(init + [Completed]) == Values(init)
  {
    var last: Stream<T> := [Completed];
    ValuesAppend(init, last);
    assert Values(last) == [] by {
      assert last[1..] == [];
    }
    assert Values(init) + [] == Values(init);
  }

  /** An empty source yields one empty collection, then completion. */
  lemma EmptySourceYieldsEmptyCollection<T>()
    ensures Emitted<T>([Completed]) == [Next([]), Completed]
  {
    EmitsOnceOnCompletion<T>([Completed]);
  }

  /** A well-formed source that fails yields only its error. */
  lemma ForwardsErrorAlone<T>(s: Stream<T>, e: Exception)
    requires WellFormed(s) && s != [] && s[|s| - 1] == Error(e)
    ensures Emitted(s) == [Error(e)]
  {
    var init := s[..|s| - 1];
    assert s == init + [Error(e)];
    assert forall i :: 0 <= i < |init| ==> init[i].Next?;
    CollectsInOrder(init);
    Snoc(init, Error(e));
  }

  /** The subscription's closure: its queue, and what it handed the observer. */
  class ToIterableSubscription<T> {
    var queue: seq<T>
    var out: Stream<seq<T>>
    ghost var received: Stream<T>

    ghost predicate Valid()
      reads this
    {
      queue == Queued(received) && out == Emitted(received)
    }

    /** Each subscription starts with a fresh, empty queue. */
    constructor ()
      ensures Valid() && received == [] && queue == [] && out == []
    {
      queue := [];
      out := [];
      received := [];
    }

    /** on_next: append the item to the queue. */
    method OnNext(x: T)
      requires Valid()
      modifies this
      ensures Valid() && received == old(received) + [Next(x)]
      ensures queue == old(queue) + [x] && out == old(out)
    {
      Snoc(received, Next(x));
      queue := queue + [x];
      received := received + [Next(x)];
    }

    /** on_completed: emit the queue, reset it, then complete. */
    method OnCompleted()
      requires Valid()
      modifies this
      ensures Valid() && received == old(received) + [Completed]
      ensures out == old(out) + [Next(old(queue)), Completed] && queue == []
    {
      Snoc(received, Completed);
      out := out + [Next(queue)];
      queue := [];
      out := out + [Completed];
      received := received + [Completed];
    }

    /** The source subscribes with the observer's own on_error. */
    method OnError(e: Exception)
      requires Valid()
      modifies this
      ensures Valid() && received == old(received) + [Error(e)]
      ensures out == old(out) + [Error(e)] && queue == old(queue)
    {
      Snoc(received, Error(e));
      out := out + [Error(e)];
      received := received + [Error(e)];
    }
  }
}
