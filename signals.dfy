/**
 * The three-channel observer contract shared by every operator of the model:
 * materialized notifications, timed messages, the streams an observable
 * produces for one subscriber, and the tri-state future that the Python
 * bridges exchange with asyncio.
 */
module Signals {

  datatype Option<T> = None | Some(value: T)

  /** The exceptions that travel on the error channel. */
  datatype Exception =
    | Raised(message: string)        // any exception raised by user code or a source
    | SequenceContainsNoElements     // rx.internal.exceptions.SequenceContainsNoElementsError
    | CancelledError                 // asyncio.CancelledError

  /** A materialized signal: on_next(value), on_error(error) or on_completed(). */
  datatype Notification<T> = Next(value: T) | Error(error: Exception) | Completed {
    predicate IsTerminal() { !Next? }
  }

  /** A value stamped with a virtual-clock instant. */
  datatype Timed<T> = Timed(time: int, value: T)

  /** What an observable delivers to one observer, in order. */
  type Stream<T> = seq<Notification<T>>

  /** An asyncio future: pending, settled with a result or an exception, or cancelled. */
  datatype Future<T> = Pending | Resolved(value: T) | Failed(error: Exception) | Cancelled {
    predicate Done() { !Pending? }
  }

  /** The observer contract: only the last signal may be terminal. */
  ghost predicate WellFormed<T>(s: Stream<T>) {
    forall i :: 0 <= i < |s| - 1 ==> s[i].Next?
  }

  /** The values carried by the next-signals of `s`, in order. */
  function Values<T>(s: Stream<T>): (vs: seq<T>)
    ensures |vs| <= |s|
    ensures (forall i :: 0 <= i < |s| ==> s[i].Next?) ==> |vs| == |s|
  {
    if s == [] then []
    else if s[0].Next? then [s[0].value] + Values(s[1..])
    else Values(s[1..])
  }

  lemma {:induction false} ValuesAppend<T>(s: Stream<T>, t: Stream<T>)
    ensures Values(s + t) == Values(s) + Values(t)
  {
    if s == [] {
      assert s + t == t;
    } else {
      assert (s + t)[1..] == s[1..] + t;
      ValuesAppend(s[1..], t);
    }
  }

  lemma ValuesSnoc<T>(s: Stream<T>, n: Notification<T>)
    ensures Values(s + [n]) == Values(s) + (if n.Next? then [n.value] else [])
  {
    var last: Stream<T> := [n];
    ValuesAppend(s, last);
    assert last[1..] == [];
  }

  /** The signals an auto-detaching observer lets through: everything up to and including the first terminal. */
  function UpToTerminal<T>(s: Stream<T>): (r: Stream<T>)
    ensures |r| <= |s| && r == s[..|r|]
    ensures WellFormed(r)
    ensures |r| < |s| ==> r != [] && r[|r| - 1].IsTerminal()
  {
    if s == [] then []
    else if s[0].Next? then [s[0]] + UpToTerminal(s[1..])
    else [s[0]]
  }

  /** `from_(items)`: every element as its own next-signal, then completion. */
  function FromIterable<T>(xs: seq<T>): (s: Stream<T>)
    ensures |s| == |xs| + 1 && s[|xs|] == Completed
    ensures forall i :: 0 <= i < |xs| ==> s[i] == Next(xs[i])
  {
    seq(|xs|, i requires 0 <= i < |xs| => Next(xs[i])) + [Completed]
  }

  /** `from_future(f)`: the signals that follow once the future is done; nothing while it is pending. */
  function FromFuture<T>(f: Future<T>): (s: Stream<T>)
    ensures WellFormed(s)
    ensures s == [] <==> f.Pending?
    ensures Values(s) == if f.Resolved? then [f.value] else []
    ensures f.Resolved? ==> s[|s| - 1] == Completed
    ensures f.Failed? ==> s[|s| - 1] == Error(f.error)
    ensures f.Cancelled? ==> s[|s| - 1] == Error(CancelledError)
  {
    match f
    case Pending => []
    case Resolved(v) => [Next(v), Completed]
    case Failed(e) => [Error(e)]
    case Cancelled => [Error(CancelledError)]
  }

  /** `throw(e)`: a single error signal. */
  function Throw<T>(e: Exception): (s: Stream<T>)
    ensures WellFormed(s) && Values(s) == []
    ensures s != [] && s[|s| - 1] == Error(e)
  {
    [Error(e)]
  }

  lemma {:induction false} ValuesOfFromIterable<T>(xs: seq<T>)
    ensures Values(FromIterable(xs)) == xs
  {
    if xs == [] {
      assert FromIterable(xs) == [Completed];
    } else {
      assert FromIterable(xs) == [Next(xs[0])] + FromIterable(xs[1..]);
      ValuesOfFromIterable(xs[1..]);
    }
  }
}
