/**
 * `buffer_with_time_or_count(span, count)`, as fixed by its test vectors:
 * the current batch is flushed when it reaches `count` elements or when
 * `span` has elapsed since the previous flush, whichever comes first, and
 * every flush restarts the timer. The first window opens at subscribe time.
 * Completion flushes the current batch once (even an empty one) and then
 * completes; an error is passed on with no flush.
 *
 * At one instant the virtual scheduler runs a source message first, then a
 * disposal, then a timer: source messages and the disposal are scheduled
 * before the subscription schedules any timer.
 */
module BufferWithTimeOrCount {
  import opened Signals

  /** The current batch and the instant of the previous flush (the subscribe instant at first). */
  datatype Window<T> = Window(batch: seq<T>, lastFlush: int)

  /** An output message: a batch, the error, or completion, at an instant. */
  type Message<T> = Timed<Notification<seq<T>>>

  /** What a subscription produces: the messages, the batch left over, and when the source subscription ends. */
  datatype Run<T> = Run(messages: seq<Message<T>>, window: Window<T>, unsubscribedAt: int)

  /** The timer flushes due strictly before `upTo`: the batch at `lastFlush + span`, then an empty batch every `span`. */
  function TimerFlushes<T>(w: Window<T>, span: int, upTo: int): (r: (seq<Message<T>>, Window<T>))
    requires span > 0
    ensures r.1.lastFlush + span >= upTo
    ensures r.0 == [] <==> w.lastFlush + span >= upTo
    ensures r.0 == [] ==> r.1 == w
    ensures r.0 != [] ==> r.1.batch == [] && w.lastFlush < r.1.lastFlush < upTo
    ensures forall i :: 0 <= i < |r.0| ==> r.0[i].value.Next? && w.lastFlush < r.0[i].time < upTo
    decreases upTo - w.lastFlush
  {
    if w.lastFlush + span < upTo then
      var due := w.lastFlush + span;
      var rest := TimerFlushes(Window([], due), span, upTo);
      ([Timed(due, Next(w.batch))] + rest.0, rest.1)
    else
      ([], w)
  }

  /**
   * The timer flushes are spaced one span apart: the first, one span after the
   * previous flush, carries the open batch, every later one an empty batch, and
   * the last one becomes the new previous flush.
   */
  lemma {:induction false} TimerFlushesAreSpaced<T>(w: Window<T>, span: int, upTo: int)
    requires span > 0
    ensures var r := TimerFlushes(w, span, upTo);
      && (r.0 != [] ==> r.0[0] == Timed(w.lastFlush + span, Next(w.batch)))
      && (forall i :: 0 < i < |r.0| ==> r.0[i] == Timed(w.lastFlush + (i + 1) * span, Next([])))
      && (r.0 != [] ==> r.1.lastFlush == r.0[|r.0| - 1].time)
    decreases upTo - w.lastFlush
  {
    if w.lastFlush + span < upTo {
      var due := w.lastFlush + span;
      var r := TimerFlushes(w, span, upTo);
      var rest := TimerFlushes(Window([], due), span, upTo);
      TimerFlushesAreSpaced<T>(Window([], due), span, upTo);
      assert r == ([Timed(due, Next(w.batch))] + rest.0, rest.1);
      forall i | 0 < i < |r.0|
        ensures r.0[i] == Timed(w.lastFlush + (i + 1) * span, Next([]))
      {
        assert r.0[i] == rest.0[i - 1];
        if i > 1 {
          assert rest.0[i - 1].time == due + i * span;
          assert (i + 1) * span == i * span + span;
        }
      }
    }
  }

  /** The subscription's reaction to the source's timed messages, observed until `disposeAt`. */
  function Go<T>(events: seq<Timed<Notification<T>>>, w: Window<T>, span: int, count: nat, disposeAt: int): (r: Run<T>)
    requires span > 0 && count > 0
    decreases |events|
  {
    if events == [] || events[0].time > disposeAt then
      var (flushes, w') := TimerFlushes(w, span, disposeAt);
      Run(flushes, w', disposeAt)
    else
      var t := events[0].time;
      var (flushes, w1) := TimerFlushes(w, span, t);
      match events[0].value
      case Next(x) =>
        var b := w1.batch + [x];
        if |b| == count then
          var rest := Go(events[1..], Window([], t), span, count, disposeAt);
          Run(flushes + [Timed(t, Next(b))] + rest.messages, rest.window, rest.unsubscribedAt)
        else
          var rest := Go(events[1..], Window(b, w1.lastFlush), span, count, disposeAt);
          Run(flushes + rest.messages, rest.window, rest.unsubscribedAt)
      case Completed =>
        Run(flushes + [Timed(t, Next(w1.batch)), Timed(t, Completed)], Window([], t), t)
      case Error(e) =>
        Run(flushes + [Timed(t, Error(e))], w1, t)
  }

  /**
   * The messages of a hot source that a subscription made at `subscribedAt`
   * receives: those sent at or before that instant are already gone.
   */
  function Subscribed<T>(events: seq<Timed<Notification<T>>>, subscribedAt: int): (r: seq<Timed<Notification<T>>>)
    ensures |r| <= |events|
    ensures (forall i :: 0 <= i < |events| ==> events[i].time > subscribedAt) ==> r == events
    decreases |events|
  {
    if events == [] then []
    else
      var rest := Subscribed(events[1..], subscribedAt);
      assert forall i :: 1 <= i < |events| ==> events[i] == events[1..][i - 1];
      if events[0].time <= subscribedAt then rest else [events[0]] + rest
  }

  /** The subscription receives every message sent after the subscribe instant, and nothing else. */
  lemma {:induction false} SubscribedKeepsExactlyTheLater<T>(events: seq<Timed<Notification<T>>>, subscribedAt: int)
    ensures var r := Subscribed(events, subscribedAt);
      && (forall i :: 0 <= i < |r| ==> r[i] in events && r[i].time > subscribedAt)
      && (forall i :: 0 <= i < |events| && events[i].time > subscribedAt ==> events[i] in r)
    decreases |events|
  {
    if events != [] {
      SubscribedKeepsExactlyTheLater(events[1..], subscribedAt);
      assert forall i :: 1 <= i < |events| ==> events[i] == events[1..][i - 1];
    }
  }

  /**
   * The operator subscribed at `subscribedAt` to a hot source emitting `events`,
   * disposed at `disposeAt` unless the source terminates first.
   */
  function BufferWithTimeOrCount<T>(events: seq<Timed<Notification<T>>>, span: int, count: nat,
                                    subscribedAt: int, disposeAt: int): Run<T>
    requires span > 0 && count > 0
  {
    Go(Subscribed(events, subscribedAt), Window([], subscribedAt), span, count, disposeAt)
  }

  /** A message sent before the subscription is never batched: only an empty timer flush follows. */
  lemma EarlierMessageIsMissed()
    ensures BufferWithTimeOrCount([Timed(150, Next(1))], 70, 3, 200, 300) == Run([Timed(270, Next([]))], Window([], 270), 300)
  {
    var E: seq<Timed<Notification<int>>> := [Timed(150, Next(1))];
    assert Subscribed(E, 200) == Subscribed(E[1..], 200);
    assert TimerFlushes<int>(Window([], 270), 70, 300).0 == [];
  }

  /** The source signals the subscription sees: those up to the disposal, up to and including the first terminal. */
  function Received<T>(events: seq<Timed<Notification<T>>>, disposeAt: int): (s: Stream<T>)
    ensures WellFormed(s)
    ensures |s| <= |events|
  {
    if events == [] || events[0].time > disposeAt then []
    else if events[0].value.Next? then [events[0].value] + Received(events[1..], disposeAt)
    else [events[0].value]
  }

  /**
   * The operator sees a prefix of the source's signals, all at or before the
   * disposal; it stops only at a terminal or at a message after the disposal.
   */
  lemma {:induction false} ReceivedIsAPrefix<T>(events: seq<Timed<Notification<T>>>, disposeAt: int)
    ensures var s := Received(events, disposeAt);
      && (forall i :: 0 <= i < |s| ==> s[i] == events[i].value && events[i].time <= disposeAt)
      && (|s| < |events| ==> events[|s|].time > disposeAt || (s != [] && s[|s| - 1].IsTerminal()))
    decreases |events|
  {
    if events != [] && events[0].time <= disposeAt && events[0].value.Next? {
      ReceivedIsAPrefix(events[1..], disposeAt);
      var s := Received(events, disposeAt);
      var rest := Received(events[1..], disposeAt);
      assert s == [events[0].value] + rest;
      forall i | 1 <= i < |s|
        ensures s[i] == events[i].value && events[i].time <= disposeAt
      {
        assert s[i] == rest[i - 1] && events[1..][i - 1] == events[i];
      }
      if |s| < |events| {
        assert events[1..][|rest|] == events[|s|];
        if rest == [] {
          assert events[1..][0] == events[1];
        }
      }
    }
  }

  /** The elements of all emitted batches, batch after batch. */
  function Batches<T>(ms: seq<Message<T>>): seq<T>
  {
    if ms == [] then []
    else (if ms[0].value.Next? then ms[0].value.value else []) + Batches(ms[1..])
  }

  lemma {:induction false} BatchesAppend<T>(a: seq<Message<T>>, b: seq<Message<T>>)
    ensures Batches(a + b) == Batches(a) + Batches(b)
  {
    if a == [] {
      assert a + b == b;
    } else {
      assert (a + b)[1..] == a[1..] + b;
      BatchesAppend(a[1..], b);
    }
  }

  lemma {:induction false} TimerFlushesKeepElements<T>(w: Window<T>, span: int, upTo: int)
    requires span > 0
    ensures Batches(TimerFlushes(w, span, upTo).0) + TimerFlushes(w, span, upTo).1.batch == w.batch
    decreases upTo - w.lastFlush
  {
    if w.lastFlush + span < upTo {
      var due := w.lastFlush + span;
      var rest := TimerFlushes(Window([], due), span, upTo);
      TimerFlushesKeepElements<T>(Window([], due), span, upTo);
      BatchesAppend([Timed(due, Next(w.batch))], rest.0);
      assert Batches([Timed(due, Next(w.batch))]) == w.batch;
    }
  }

  /** The run after a next-signal `x` at `t`, as Go builds it from the rest of the run. */
  lemma NextStep<T>(events: seq<Timed<Notification<T>>>, w: Window<T>, span: int, count: nat, disposeAt: int)
    requires span > 0 && count > 0
    requires events != [] && events[0].time <= disposeAt && events[0].value.Next?
    ensures var t := events[0].time;
      var (flushes, w1) := TimerFlushes(w, span, t);
      var b := w1.batch + [events[0].value.value];
      var r := Go(events, w, span, count, disposeAt);
      && (|b| == count ==> var rest := Go(events[1..], Window([], t), span, count, disposeAt);
            r == Run(flushes + [Timed(t, Next(b))] + rest.messages, rest.window, rest.unsubscribedAt))
      && (|b| != count ==> var rest := Go(events[1..], Window(b, w1.lastFlush), span, count, disposeAt);
            r == Run(flushes + rest.messages, rest.window, rest.unsubscribedAt))
  {
  }

  /** A next-signal before the next timer flush that leaves the batch short of `count` only joins it. */
  lemma JoinsBatch<T>(events: seq<Timed<Notification<T>>>, w: Window<T>, span: int, count: nat, disposeAt: int)
    requires span > 0 && count > 0
    requires events != [] && events[0].time <= disposeAt && events[0].value.Next?
    requires events[0].time <= w.lastFlush + span && |w.batch| + 1 != count
    ensures Go(events, w, span, count, disposeAt)
         == Go(events[1..], Window(w.batch + [events[0].value.value], w.lastFlush), span, count, disposeAt)
  {
    assert TimerFlushes(w, span, events[0].time) == ([], w);
    var rest := Go(events[1..], Window(w.batch + [events[0].value.value], w.lastFlush), span, count, disposeAt);
    assert [] + rest.messages == rest.messages;
  }

  /** A next-signal before the next timer flush that fills the batch to `count` emits it at once. */
  lemma FillsBatch<T>(events: seq<Timed<Notification<T>>>, w: Window<T>, span: int, count: nat, disposeAt: int)
    requires span > 0 && count > 0
    requires events != [] && events[0].time <= disposeAt && events[0].value.Next?
    requires events[0].time <= w.lastFlush + span && |w.batch| + 1 == count
    ensures var t := events[0].time;
      var rest := Go(events[1..], Window([], t), span, count, disposeAt);
      Go(events, w, span, count, disposeAt)
        == Run([Timed(t, Next(w.batch + [events[0].value.value]))] + rest.messages, rest.window, rest.unsubscribedAt)
  {
    assert TimerFlushes(w, span, events[0].time) == ([], w);
    var t := events[0].time;
    assert [] + [Timed(t, Next(w.batch + [events[0].value.value]))] == [Timed(t, Next(w.batch + [events[0].value.value]))];
  }

  /** Emitting a count flush between timer flushes and the rest of the run loses and reorders nothing. */
  lemma CountFlushKeeps<T>(flushes: seq<Message<T>>, open: seq<T>, x: T, t: int,
                           rest: seq<Message<T>>, left: seq<T>, tail: seq<T>)
    requires Batches(rest) + left == tail
    ensures Batches(flushes + [Timed(t, Next(open + [x]))] + rest) + left == Batches(flushes) + open + ([x] + tail)
  {
    BatchesAppend(flushes + [Timed(t, Next(open + [x]))], rest);
    BatchesAppend(flushes, [Timed(t, Next(open + [x]))]);
    assert Batches([Timed(t, Next(open + [x]))]) == open + [x];
  }

  /** Extending the open batch between timer flushes and the rest of the run loses and reorders nothing. */
  lemma ExtendKeeps<T>(flushes: seq<Message<T>>, open: seq<T>, x: T,
                       rest: seq<Message<T>>, left: seq<T>, tail: seq<T>)
    requires Batches(rest) + left == (open + [x]) + tail
    ensures Batches(flushes + rest) + left == Batches(flushes) + open + ([x] + tail)
  {
    BatchesAppend(flushes, rest);
    assert Batches(flushes + rest) + left == Batches(flushes) + (Batches(rest) + left);
    assert (open + [x]) + tail == open + ([x] + tail);
  }

  /**
   * Batches keep arrival order and every received element lands in exactly
   * one batch or in the batch still open; completion leaves none open.
   */
  lemma {:induction false} EveryElementInOneBatch<T>(events: seq<Timed<Notification<T>>>, w: Window<T>,
                                                     span: int, count: nat, disposeAt: int)
    requires span > 0 && count > 0
    ensures var r := Go(events, w, span, count, disposeAt);
      Batches(r.messages) + r.window.batch == w.batch + Values(Received(events, disposeAt))
    decreases |events|
  {
    if events == [] || events[0].time > disposeAt {
      TimerFlushesKeepElements(w, span, disposeAt);
    } else {
      var t := events[0].time;
      var (flushes, w1) := TimerFlushes(w, span, t);
      TimerFlushesKeepElements(w, span, t);
      match events[0].value
      case Next(x) =>
        NextStep(events, w, span, count, disposeAt);
        var tail := Values(Received(events[1..], disposeAt));
        assert Received(events, disposeAt) == [Next(x)] + Received(events[1..], disposeAt);
        assert Values(Received(events, disposeAt)) == [x] + tail;
        var b := w1.batch + [x];
        if |b| == count {
          var rest := Go(events[1..], Window([], t), span, count, disposeAt);
          EveryElementInOneBatch(events[1..], Window([], t), span, count, disposeAt);
          CountFlushKeeps(flushes, w1.batch, x, t, rest.messages, rest.window.batch, tail);
        } else {
          var rest := Go(events[1..], Window(b, w1.lastFlush), span, count, disposeAt);
          EveryElementInOneBatch(events[1..], Window(b, w1.lastFlush), span, count, disposeAt);
          ExtendKeeps(flushes, w1.batch, x, rest.messages, rest.window.batch, tail);
        }
      case Completed =>
        assert Received(events, disposeAt) == [Completed];
        BatchesAppend(flushes, [Timed(t, Next(w1.batch)), Timed(t, Completed)]);
        assert Batches<T>([Timed(t, Completed)]) == [];
        BatchesAppend([Timed(t, Next(w1.batch))], [Timed(t, Completed)]);
        assert [Timed(t, Next(w1.batch)), Timed(t, Completed)] == [Timed(t, Next(w1.batch))] + [Timed(t, Completed)];
      case Error(e) =>
        assert Received(events, disposeAt) == [Error(e)];
        BatchesAppend(flushes, [Timed(t, Error(e))]);
        assert Batches<T>([Timed(t, Error(e))]) == [];
    }
  }

  /** When the source completes, every received element has been emitted, in arrival order. */
  lemma CompletionFlushesEverything<T>(events: seq<Timed<Notification<T>>>, w: Window<T>,
                                       span: int, count: nat, disposeAt: int)
    requires span > 0 && count > 0
    requires var s := Received(events, disposeAt); s != [] && s[|s| - 1] == Completed
    ensures Batches(Go(events, w, span, count, disposeAt).messages) == w.batch + Values(Received(events, disposeAt))
  {
    EveryElementInOneBatch(events, w, span, count, disposeAt);
    CompletionLeavesNoBatch(events, w, span, count, disposeAt);
    var r := Go(events, w, span, count, disposeAt);
    assert Batches(r.messages) + [] == Batches(r.messages);
  }

  /** A completion the subscription receives leaves no batch open. */
  lemma {:induction false} CompletionLeavesNoBatch<T>(events: seq<Timed<Notification<T>>>, w: Window<T>,
                                                      span: int, count: nat, disposeAt: int)
    requires span > 0 && count > 0
    requires var s := Received(events, disposeAt); s != [] && s[|s| - 1] == Completed
    ensures Go(events, w, span, count, disposeAt).window.batch == []
    decreases |events|
  {
    var t := events[0].time;
    var (flushes, w1) := TimerFlushes(w, span, t);
    match events[0].value
    case Next(x) =>
      assert Received(events, disposeAt) == [Next(x)] + Received(events[1..], disposeAt);
      NextStep(events, w, span, count, disposeAt);
      var b := w1.batch + [x];
      if |b| == count {
        CompletionLeavesNoBatch(events[1..], Window([], t), span, count, disposeAt);
      } else {
        CompletionLeavesNoBatch(events[1..], Window(b, w1.lastFlush), span, count, disposeAt);
      }
    case Completed =>
    case Error(e) =>
  }

  ghost predicate NoBatchOver<T>(ms: seq<Message<T>>, count: nat) {
    forall i :: 0 <= i < |ms| ==> ms[i].value.Next? ==> |ms[i].value.value| <= count
  }

  ghost predicate OnlyLastTerminal<T>(ms: seq<Message<T>>) {
    forall i :: 0 <= i < |ms| - 1 ==> ms[i].value.Next?
  }

  lemma ShapeAppend<T>(a: seq<Message<T>>, b: seq<Message<T>>, count: nat)
    requires NoBatchOver(a, count) && NoBatchOver(b, count)
    requires forall i :: 0 <= i < |a| ==> a[i].value.Next?
    requires OnlyLastTerminal(b)
    ensures NoBatchOver(a + b, count) && OnlyLastTerminal(a + b)
  {
    forall i | 0 <= i < |a + b|
      ensures (a + b)[i] == if i < |a| then a[i] else b[i - |a|]
    {
    }
  }

  /** No batch exceeds the threshold, and only the last message can be terminal. */
  lemma {:induction false} RunShape<T>(events: seq<Timed<Notification<T>>>, w: Window<T>,
                                       span: int, count: nat, disposeAt: int)
    requires span > 0 && count > 0 && |w.batch| < count
    ensures var r := Go(events, w, span, count, disposeAt);
      NoBatchOver(r.messages, count) && OnlyLastTerminal(r.messages)
    decreases |events|
  {
    if events == [] || events[0].time > disposeAt {
      TimerBatchesBounded(w, span, disposeAt);
    } else {
      var t := events[0].time;
      var (flushes, w1) := TimerFlushes(w, span, t);
      TimerBatchesBounded(w, span, t);
      assert NoBatchOver(flushes, count);
      match events[0].value
      case Next(x) =>
        NextStep(events, w, span, count, disposeAt);
        var b := w1.batch + [x];
        if |b| == count {
          RunShape(events[1..], Window([], t), span, count, disposeAt);
          var rest := Go(events[1..], Window([], t), span, count, disposeAt);
          ShapeAppend(flushes + [Timed(t, Next(b))], rest.messages, count);
        } else {
          RunShape(events[1..], Window(b, w1.lastFlush), span, count, disposeAt);
          var rest := Go(events[1..], Window(b, w1.lastFlush), span, count, disposeAt);
          ShapeAppend(flushes, rest.messages, count);
        }
      case Completed =>
        ShapeAppend(flushes, [Timed(t, Next(w1.batch)), Timed(t, Completed)], count);
      case Error(e) =>
        ShapeAppend(flushes, [Timed(t, Error(e))], count);
    }
  }

  /** The timer's batches are the open one (below the threshold) and empty ones. */
  lemma {:induction false} TimerBatchesBounded<T>(w: Window<T>, span: int, upTo: int)
    requires span > 0
    ensures var r := TimerFlushes(w, span, upTo);
      forall i :: 0 <= i < |r.0| ==> |r.0[i].value.value| <= |w.batch|
    ensures |TimerFlushes(w, span, upTo).1.batch| <= |w.batch|
    decreases upTo - w.lastFlush
  {
    if w.lastFlush + span < upTo {
      TimerBatchesBounded<T>(Window([], w.lastFlush + span), span, upTo);
    }
  }

  /** Source messages arrive in time order. */
  ghost predicate InTimeOrder<T>(events: seq<Timed<T>>) {
    forall i, j :: 0 <= i < j < |events| ==> events[i].time <= events[j].time
  }

  /** The source subscription ends at the first terminal the subscription receives, or else at the disposal. */
  ghost predicate EndsAtTerminalOrDisposal<T>(events: seq<Timed<Notification<T>>>, r: Run<T>, disposeAt: int) {
    var s := Received(events, disposeAt);
    && (s == [] || s[|s| - 1].Next? ==> r.unsubscribedAt == disposeAt)
    && (s != [] && s[|s| - 1].IsTerminal() ==> r.unsubscribedAt == events[|s| - 1].time)
  }

  lemma {:induction false} UnsubscribesAtTerminalOrDisposal<T>(events: seq<Timed<Notification<T>>>, w: Window<T>,
                                                               span: int, count: nat, disposeAt: int)
    requires span > 0 && count > 0
    ensures EndsAtTerminalOrDisposal(events, Go(events, w, span, count, disposeAt), disposeAt)
    decreases |events|
  {
    if events != [] && events[0].time <= disposeAt {
      var t := events[0].time;
      var (flushes, w1) := TimerFlushes(w, span, t);
      match events[0].value
      case Next(x) =>
        NextStep(events, w, span, count, disposeAt);
        var rest := Received(events[1..], disposeAt);
        assert Received(events, disposeAt) == [Next(x)] + rest;
        var b := w1.batch + [x];
        if |b| == count {
          UnsubscribesAtTerminalOrDisposal(events[1..], Window([], t), span, count, disposeAt);
        } else {
          UnsubscribesAtTerminalOrDisposal(events[1..], Window(b, w1.lastFlush), span, count, disposeAt);
        }
        if rest != [] {
          assert events[1..][|rest| - 1] == events[|rest|];
        }
      case Completed =>
      case Error(e) =>
    }
  }

  /** Nothing is sent after the source subscription ends, which is never after the disposal. */
  lemma {:induction false} MessagesAtOrBefore<T>(events: seq<Timed<Notification<T>>>, w: Window<T>,
                                                 span: int, count: nat, disposeAt: int)
    requires span > 0 && count > 0 && InTimeOrder(events)
    ensures var r := Go(events, w, span, count, disposeAt);
      && (forall i :: 0 <= i < |r.messages| ==> r.messages[i].time <= r.unsubscribedAt)
      && r.unsubscribedAt <= disposeAt
      && (events != [] && events[0].time <= disposeAt ==> events[0].time <= r.unsubscribedAt)
    ensures EndsAtTerminalOrDisposal(events, Go(events, w, span, count, disposeAt), disposeAt)
    decreases |events|
  {
    UnsubscribesAtTerminalOrDisposal(events, w, span, count, disposeAt);
    if events == [] || events[0].time > disposeAt {
    } else {
      var t := events[0].time;
      var (flushes, w1) := TimerFlushes(w, span, t);
      assert InTimeOrder(events[1..]) by {
        forall i, j | 0 <= i < j < |events[1..]|
          ensures events[1..][i].time <= events[1..][j].time
        {
          assert events[1..][i] == events[i + 1] && events[1..][j] == events[j + 1];
        }
      }
      assert |events| > 1 ==> t <= events[1].time;
      match events[0].value
      case Next(x) =>
        var b := w1.batch + [x];
        if |b| == count {
          MessagesAtOrBefore(events[1..], Window([], t), span, count, disposeAt);
        } else {
          MessagesAtOrBefore(events[1..], Window(b, w1.lastFlush), span, count, disposeAt);
        }
      case Completed =>
      case Error(e) =>
    }
  }

  /** The hot source shared by the three tests: values 1 to 9 between 205 and 470. */
  function HotValues(): seq<Timed<Notification<int>>>
  {
    [Timed(205, Next(1)), Timed(210, Next(2)), Timed(240, Next(3)), Timed(280, Next(4)), Timed(320, Next(5)),
     Timed(350, Next(6)), Timed(370, Next(7)), Timed(420, Next(8)), Timed(470, Next(9))]
  }

  /** The batches up to 370: a count flush at 240, a timer flush at 310, a count flush at 370. */
  function UpTo370(): seq<Message<int>>
  {
    [Timed(240, Next([1, 2, 3])), Timed(310, Next([4])), Timed(370, Next([5, 6, 7]))]
  }

  /** The timer flushes after 370: one element at 440 and at 510, then an idle window at 580. */
  function After370(): seq<Message<int>>
  {
    [Timed(440, Next([8])), Timed(510, Next([9])), Timed(580, Next([]))]
  }

  /** Every message of the shared source is sent after the subscription at 200. */
  lemma SubscribedLate(E: seq<Timed<Notification<int>>>, last: Timed<Notification<int>>)
    requires E == HotValues() + [last] && last.time == 600
    ensures Subscribed(E, 200) == E
  {
    var hot := HotValues();
    assert forall i :: 0 <= i < |hot| ==> hot[i].time > 200;
    assert forall i :: 0 <= i < |E| ==> E[i].time > 200 by {
      assert forall i :: 0 <= i < |hot| ==> E[i] == hot[i];
      assert E[|hot|] == last;
    }
  }

  lemma CompletingSource()
    ensures HotValues() + [Timed(600, Completed)] == [Timed(205, Next(1)), Timed(210, Next(2)), Timed(240, Next(3)), Timed(280, Next(4)), Timed(320, Next(5)), Timed(350, Next(6)), Timed(370, Next(7)), Timed(420, Next(8)), Timed(470, Next(9)), Timed(600, Completed)]
  {
  }

  lemma ErrorMessages()
    ensures UpTo370() + After370() + [Timed(600, Error(Raised("ex")))]
        == [Timed(240, Next([1, 2, 3])), Timed(310, Next([4])), Timed(370, Next([5, 6, 7])), Timed(440, Next([8])), Timed(510, Next([9])), Timed(580, Next([])), Timed(600, Error(Raised("ex")))]
  {
  }

  lemma ErroringSource()
    ensures HotValues() + [Timed(600, Error(Raised("ex")))] == [Timed(205, Next(1)), Timed(210, Next(2)), Timed(240, Next(3)), Timed(280, Next(4)), Timed(320, Next(5)), Timed(350, Next(6)), Timed(370, Next(7)), Timed(420, Next(8)), Timed(470, Next(9)), Timed(600, Error(Raised("ex")))]
  {
  }

  lemma BasicMessages()
    ensures UpTo370() + After370() + [Timed(600, Next([])), Timed(600, Completed)]
        == [Timed(240, Next([1, 2, 3])), Timed(310, Next([4])), Timed(370, Next([5, 6, 7])), Timed(440, Next([8])), Timed(510, Next([9])), Timed(580, Next([])), Timed(600, Next([])), Timed(600, Completed)]
  {
  }

  /** Completion at 600: a final empty batch and completion, both at 600. */
  lemma BasicVector()
    ensures BufferWithTimeOrCount(HotValues() + [Timed(600, Completed)], 70, 3, 200, 1000)
         == Run(UpTo370() + After370() + [Timed(600, Next([])), Timed(600, Completed)], Window([], 600), 600)
  {
    SubscribedLate(HotValues() + [Timed(600, Completed)], Timed(600, Completed));
    CompletingSource();
    BasicFrom0(HotValues() + [Timed(600, Completed)]);
    BasicMessages();
  }

  /** An error at 600: the empty batch at 580 is followed directly by the error. */
  lemma ErrorVector()
    ensures BufferWithTimeOrCount(HotValues() + [Timed(600, Error(Raised("ex")))], 70, 3, 200, 1000)
         == Run(UpTo370() + After370() + [Timed(600, Error(Raised("ex")))], Window([], 580), 600)
  {
    SubscribedLate(HotValues() + [Timed(600, Error(Raised("ex")))], Timed(600, Error(Raised("ex"))));
    ErroringSource();
    ErrorFrom0(HotValues() + [Timed(600, Error(Raised("ex")))]);
    ErrorMessages();
  }

  /** Disposal at 370: the outputs up to and including 370, and the source subscription ends at 370. */
  lemma DisposedVector()
    ensures BufferWithTimeOrCount(HotValues() + [Timed(600, Completed)], 70, 3, 200, 370)
         == Run(UpTo370(), Window([], 370), 370)
  {
    SubscribedLate(HotValues() + [Timed(600, Completed)], Timed(600, Completed));
    CompletingSource();
    DisposedFrom0(HotValues() + [Timed(600, Completed)]);
  }

  // Each of the lemmas below evaluates the run from one source message on, given the rest.
  // The remaining messages are a parameter equal to a literal rather than the literal itself,
  // so that the verifier takes one step of Go per lemma instead of unfolding Go over the whole list.
  lemma BasicFrom0(E: seq<Timed<Notification<int>>>)
    requires E == [Timed(205, Next(1)), Timed(210, Next(2)), Timed(240, Next(3)), Timed(280, Next(4)), Timed(320, Next(5)), Timed(350, Next(6)), Timed(370, Next(7)), Timed(420, Next(8)), Timed(470, Next(9)), Timed(600, Completed)]
    ensures Go(E, Window([], 200), 70, 3, 1000) == Run([Timed(240, Next([1, 2, 3])), Timed(310, Next([4])), Timed(370, Next([5, 6, 7])), Timed(440, Next([8])), Timed(510, Next([9])), Timed(580, Next([])), Timed(600, Next([])), Timed(600, Completed)], Window([], 600), 600)
  {
    assert [] + [1] == [1];
    assert E[1..] == [Timed(210, Next(2)), Timed(240, Next(3)), Timed(280, Next(4)), Timed(320, Next(5)), Timed(350, Next(6)), Timed(370, Next(7)), Timed(420, Next(8)), Timed(470, Next(9)), Timed(600, Completed)];
    BasicFrom1(E[1..]);
    JoinsBatch(E, Window([], 200), 70, 3, 1000);
  }

  lemma BasicFrom1(E: seq<Timed<Notification<int>>>)
    requires E == [Timed(210, Next(2)), Timed(240, Next(3)), Timed(280, Next(4)), Timed(320, Next(5)), Timed(350, Next(6)), Timed(370, Next(7)), Timed(420, Next(8)), Timed(470, Next(9)), Timed(600, Completed)]
    ensures Go(E, Window([1], 200), 70, 3, 1000) == Run([Timed(240, Next([1, 2, 3])), Timed(310, Next([4])), Timed(370, Next([5, 6, 7])), Timed(440, Next([8])), Timed(510, Next([9])), Timed(580, Next([])), Timed(600, Next([])), Timed(600, Completed)], Window([], 600), 600)
  {
    assert [1] + [2] == [1, 2];
    assert E[1..] == [Timed(240, Next(3)), Timed(280, Next(4)), Timed(320, Next(5)), Timed(350, Next(6)), Timed(370, Next(7)), Timed(420, Next(8)), Timed(470, Next(9)), Timed(600, Completed)];
    BasicFrom2(E[1..]);
    JoinsBatch(E, Window([1], 200), 70, 3, 1000);
  }

  lemma BasicFrom2(E: seq<Timed<Notification<int>>>)
    requires E == [Timed(240, Next(3)), Timed(280, Next(4)), Timed(320, Next(5)), Timed(350, Next(6)), Timed(370, Next(7)), Timed(420, Next(8)), Timed(470, Next(9)), Timed(600, Completed)]
    ensures Go(E, Window([1, 2], 200), 70, 3, 1000) == Run([Timed(240, Next([1, 2, 3])), Timed(310, Next([4])), Timed(370, Next([5, 6, 7])), Timed(440, Next([8])), Timed(510, Next([9])), Timed(580, Next([])), Timed(600, Next([])), Timed(600, Completed)], Window([], 600), 600)
  {
    assert [1, 2] + [3] == [1, 2, 3];
    assert E[1..] == [Timed(280, Next(4)), Timed(320, Next(5)), Timed(350, Next(6)), Timed(370, Next(7)), Timed(420, Next(8)), Timed(470, Next(9)), Timed(600, Completed)];
    BasicFrom3(E[1..]);
    assert [Timed(240, Next([1, 2, 3])), Timed(310, Next([4])), Timed(370, Next([5, 6, 7])), Timed(440, Next([8])), Timed(510, Next([9])), Timed(580, Next([])), Timed(600, Next([])), Timed(600, Completed)] == [Timed(240, Next([1, 2, 3]))] + [Timed(310, Next([4])), Timed(370, Next([5, 6, 7])), Timed(440, Next([8])), Timed(510, Next([9])), Timed(580, Next([])), Timed(600, Next([])), Timed(600, Completed)];
    FillsBatch(E, Window([1, 2], 200), 70, 3, 1000);
  }

  lemma BasicFrom3(E: seq<Timed<Notification<int>>>)
    requires E == [Timed(280, Next(4)), Timed(320, Next(5)), Timed(350, Next(6)), Timed(370, Next(7)), Timed(420, Next(8)), Timed(470, Next(9)), Timed(600, Completed)]
    ensures Go(E, Window([], 240), 70, 3, 1000) == Run([Timed(310, Next([4])), Timed(370, Next([5, 6, 7])), Timed(440, Next([8])), Timed(510, Next([9])), Timed(580, Next([])), Timed(600, Next([])), Timed(600, Completed)], Window([], 600), 600)
  {
    assert [] + [4] == [4];
    assert E[1..] == [Timed(320, Next(5)), Timed(350, Next(6)), Timed(370, Next(7)), Timed(420, Next(8)), Timed(470, Next(9)), Timed(600, Completed)];
    BasicFrom4(E[1..]);
    JoinsBatch(E, Window([], 240), 70, 3, 1000);
  }

  lemma BasicFrom4(E: seq<Timed<Notification<int>>>)
    requires E == [Timed(320, Next(5)), Timed(350, Next(6)), Timed(370, Next(7)), Timed(420, Next(8)), Timed(470, Next(9)), Timed(600, Completed)]
    ensures Go(E, Window([4], 240), 70, 3, 1000) == Run([Timed(310, Next([4])), Timed(370, Next([5, 6, 7])), Timed(440, Next([8])), Timed(510, Next([9])), Timed(580, Next([])), Timed(600, Next([])), Timed(600, Completed)], Window([], 600), 600)
  {
    assert TimerFlushes<int>(Window([4], 240), 70, 320).0 == [Timed(310, Next([4]))];
    assert [] + [5] == [5];
    assert E[1..] == [Timed(350, Next(6)), Timed(370, Next(7)), Timed(420, Next(8)), Timed(470, Next(9)), Timed(600, Completed)];
    BasicFrom5(E[1..]);
    assert [Timed(310, Next([4])), Timed(370, Next([5, 6, 7])), Timed(440, Next([8])), Timed(510, Next([9])), Timed(580, Next([])), Timed(600, Next([])), Timed(600, Completed)] == [Timed(310, Next([4]))] + [] + [Timed(370, Next([5, 6, 7])), Timed(440, Next([8])), Timed(510, Next([9])), Timed(580, Next([])), Timed(600, Next([])), Timed(600, Completed)];
    NextStep(E, Window([4], 240), 70, 3, 1000);
    assert Go(E, Window([4], 240), 70, 3, 1000) == Run([Timed(310, Next([4])), Timed(370, Next([5, 6, 7])), Timed(440, Next([8])), Timed(510, Next([9])), Timed(580, Next([])), Timed(600, Next([])), Timed(600, Completed)], Window([], 600), 600);
  }

  lemma BasicFrom5(E: seq<Timed<Notification<int>>>)
    requires E == [Timed(350, Next(6)), Timed(370, Next(7)), Timed(420, Next(8)), Timed(470, Next(9)), Timed(600, Completed)]
    ensures Go(E, Window([5], 310), 70, 3, 1000) == Run([Timed(370, Next([5, 6, 7])), Timed(440, Next([8])), Timed(510, Next([9])), Timed(580, Next([])), Timed(600, Next([])), Timed(600, Completed)], Window([], 600), 600)
  {
    assert [5] + [6] == [5, 6];
    assert E[1..] == [Timed(370, Next(7)), Timed(420, Next(8)), Timed(470, Next(9)), Timed(600, Completed)];
    BasicFrom6(E[1..]);
    JoinsBatch(E, Window([5], 310), 70, 3, 1000);
  }

  lemma BasicFrom6(E: seq<Timed<Notification<int>>>)
    requires E == [Timed(370, Next(7)), Timed(420, Next(8)), Timed(470, Next(9)), Timed(600, Completed)]
    ensures Go(E, Window([5, 6], 310), 70, 3, 1000) == Run([Timed(370, Next([5, 6, 7])), Timed(440, Next([8])), Timed(510, Next([9])), Timed(580, Next([])), Timed(600, Next([])), Timed(600, Completed)], Window([], 600), 600)
  {
    assert [5, 6] + [7] == [5, 6, 7];
    assert E[1..] == [Timed(420, Next(8)), Timed(470, Next(9)), Timed(600, Completed)];
    BasicFrom7(E[1..]);
    assert [Timed(370, Next([5, 6, 7])), Timed(440, Next([8])), Timed(510, Next([9])), Timed(580, Next([])), Timed(600, Next([])), Timed(600, Completed)] == [Timed(370, Next([5, 6, 7]))] + [Timed(440, Next([8])), Timed(510, Next([9])), Timed(580, Next([])), Timed(600, Next([])), Timed(600, Completed)];
    FillsBatch(E, Window([5, 6], 310), 70, 3, 1000);
  }

  lemma BasicFrom7(E: seq<Timed<Notification<int>>>)
    requires E == [Timed(420, Next(8)), Timed(470, Next(9)), Timed(600, Completed)]
    ensures Go(E, Window([], 370), 70, 3, 1000) == Run([Timed(440, Next([8])), Timed(510, Next([9])), Timed(580, Next([])), Timed(600, Next([])), Timed(600, Completed)], Window([], 600), 600)
  {
    assert [] + [8] == [8];
    assert E[1..] == [Timed(470, Next(9)), Timed(600, Completed)];
    BasicFrom8(E[1..]);
    JoinsBatch(E, Window([], 370), 70, 3, 1000);
  }

  lemma BasicFrom8(E: seq<Timed<Notification<int>>>)
    requires E == [Timed(470, Next(9)), Timed(600, Completed)]
    ensures Go(E, Window([8], 370), 70, 3, 1000) == Run([Timed(440, Next([8])), Timed(510, Next([9])), Timed(580, Next([])), Timed(600, Next([])), Timed(600, Completed)], Window([], 600), 600)
  {
    assert TimerFlushes<int>(Window([8], 370), 70, 470).0 == [Timed(440, Next([8]))];
    assert [] + [9] == [9];
    assert E[1..] == [Timed(600, Completed)];
    BasicFrom9(E[1..]);
    assert [Timed(440, Next([8])), Timed(510, Next([9])), Timed(580, Next([])), Timed(600, Next([])), Timed(600, Completed)] == [Timed(440, Next([8]))] + [] + [Timed(510, Next([9])), Timed(580, Next([])), Timed(600, Next([])), Timed(600, Completed)];
    NextStep(E, Window([8], 370), 70, 3, 1000);
    assert Go(E, Window([8], 370), 70, 3, 1000) == Run([Timed(440, Next([8])), Timed(510, Next([9])), Timed(580, Next([])), Timed(600, Next([])), Timed(600, Completed)], Window([], 600), 600);
  }

  lemma BasicFrom9(E: seq<Timed<Notification<int>>>)
    requires E == [Timed(600, Completed)]
    ensures Go(E, Window([9], 440), 70, 3, 1000) == Run([Timed(510, Next([9])), Timed(580, Next([])), Timed(600, Next([])), Timed(600, Completed)], Window([], 600), 600)
  {
    assert TimerFlushes<int>(Window([], 510), 70, 600).0 == [Timed(580, Next([]))];
    assert TimerFlushes<int>(Window([9], 440), 70, 600).0 == [Timed(510, Next([9])), Timed(580, Next([]))];
    assert Go(E, Window([9], 440), 70, 3, 1000) == Run([Timed(510, Next([9])), Timed(580, Next([])), Timed(600, Next([])), Timed(600, Completed)], Window([], 600), 600);
  }


  lemma ErrorFrom0(E: seq<Timed<Notification<int>>>)
    requires E == [Timed(205, Next(1)), Timed(210, Next(2)), Timed(240, Next(3)), Timed(280, Next(4)), Timed(320, Next(5)), Timed(350, Next(6)), Timed(370, Next(7)), Timed(420, Next(8)), Timed(470, Next(9)), Timed(600, Error(Raised("ex")))]
    ensures Go(E, Window([], 200), 70, 3, 1000) == Run([Timed(240, Next([1, 2, 3])), Timed(310, Next([4])), Timed(370, Next([5, 6, 7])), Timed(440, Next([8])), Timed(510, Next([9])), Timed(580, Next([])), Timed(600, Error(Raised("ex")))], Window([], 580), 600)
  {
    assert [] + [1] == [1];
    assert E[1..] == [Timed(210, Next(2)), Timed(240, Next(3)), Timed(280, Next(4)), Timed(320, Next(5)), Timed(350, Next(6)), Timed(370, Next(7)), Timed(420, Next(8)), Timed(470, Next(9)), Timed(600, Error(Raised("ex")))];
    ErrorFrom1(E[1..]);
    JoinsBatch(E, Window([], 200), 70, 3, 1000);
  }

  lemma ErrorFrom1(E: seq<Timed<Notification<int>>>)
    requires E == [Timed(210, Next(2)), Timed(240, Next(3)), Timed(280, Next(4)), Timed(320, Next(5)), Timed(350, Next(6)), Timed(370, Next(7)), Timed(420, Next(8)), Timed(470, Next(9)), Timed(600, Error(Raised("ex")))]
    ensures Go(E, Window([1], 200), 70, 3, 1000) == Run([Timed(240, Next([1, 2, 3])), Timed(310, Next([4])), Timed(370, Next([5, 6, 7])), Timed(440, Next([8])), Timed(510, Next([9])), Timed(580, Next([])), Timed(600, Error(Raised("ex")))], Window([], 580), 600)
  {
    assert [1] + [2] == [1, 2];
    assert E[1..] == [Timed(240, Next(3)), Timed(280, Next(4)), Timed(320, Next(5)), Timed(350, Next(6)), Timed(370, Next(7)), Timed(420, Next(8)), Timed(470, Next(9)), Timed(600, Error(Raised("ex")))];
    ErrorFrom2(E[1..]);
    JoinsBatch(E, Window([1], 200), 70, 3, 1000);
  }

  lemma ErrorFrom2(E: seq<Timed<Notification<int>>>)
    requires E == [Timed(240, Next(3)), Timed(280, Next(4)), Timed(320, Next(5)), Timed(350, Next(6)), Timed(370, Next(7)), Timed(420, Next(8)), Timed(470, Next(9)), Timed(600, Error(Raised("ex")))]
    ensures Go(E, Window([1, 2], 200), 70, 3, 1000) == Run([Timed(240, Next([1, 2, 3])), Timed(310, Next([4])), Timed(370, Next([5, 6, 7])), Timed(440, Next([8])), Timed(510, Next([9])), Timed(580, Next([])), Timed(600, Error(Raised("ex")))], Window([], 580), 600)
  {
    assert [1, 2] + [3] == [1, 2, 3];
    assert E[1..] == [Timed(280, Next(4)), Timed(320, Next(5)), Timed(350, Next(6)), Timed(370, Next(7)), Timed(420, Next(8)), Timed(470, Next(9)), Timed(600, Error(Raised("ex")))];
    ErrorFrom3(E[1..]);
    assert [Timed(240, Next([1, 2, 3])), Timed(310, Next([4])), Timed(370, Next([5, 6, 7])), Timed(440, Next([8])), Timed(510, Next([9])), Timed(580, Next([])), Timed(600, Error(Raised("ex")))] == [Timed(240, Next([1, 2, 3]))] + [Timed(310, Next([4])), Timed(370, Next([5, 6, 7])), Timed(440, Next([8])), Timed(510, Next([9])), Timed(580, Next([])), Timed(600, Error(Raised("ex")))];
    FillsBatch(E, Window([1, 2], 200), 70, 3, 1000);
  }

  lemma ErrorFrom3(E: seq<Timed<Notification<int>>>)
    requires E == [Timed(280, Next(4)), Timed(320, Next(5)), Timed(350, Next(6)), Timed(370, Next(7)), Timed(420, Next(8)), Timed(470, Next(9)), Timed(600, Error(Raised("ex")))]
    ensures Go(E, Window([], 240), 70, 3, 1000) == Run([Timed(310, Next([4])), Timed(370, Next([5, 6, 7])), Timed(440, Next([8])), Timed(510, Next([9])), Timed(580, Next([])), Timed(600, Error(Raised("ex")))], Window([], 580), 600)
  {
    assert [] + [4] == [4];
    assert E[1..] == [Timed(320, Next(5)), Timed(350, Next(6)), Timed(370, Next(7)), Timed(420, Next(8)), Timed(470, Next(9)), Timed(600, Error(Raised("ex")))];
    ErrorFrom4(E[1..]);
    JoinsBatch(E, Window([], 240), 70, 3, 1000);
  }

  lemma ErrorFrom4(E: seq<Timed<Notification<int>>>)
    requires E == [Timed(320, Next(5)), Timed(350, Next(6)), Timed(370, Next(7)), Timed(420, Next(8)), Timed(470, Next(9)), Timed(600, Error(Raised("ex")))]
    ensures Go(E, Window([4], 240), 70, 3, 1000) == Run([Timed(310, Next([4])), Timed(370, Next([5, 6, 7])), Timed(440, Next([8])), Timed(510, Next([9])), Timed(580, Next([])), Timed(600, Error(Raised("ex")))], Window([], 580), 600)
  {
    assert TimerFlushes<int>(Window([4], 240), 70, 320).0 == [Timed(310, Next([4]))];
    assert [] + [5] == [5];
    assert E[1..] == [Timed(350, Next(6)), Timed(370, Next(7)), Timed(420, Next(8)), Timed(470, Next(9)), Timed(600, Error(Raised("ex")))];
    ErrorFrom5(E[1..]);
    assert [Timed(310, Next([4])), Timed(370, Next([5, 6, 7])), Timed(440, Next([8])), Timed(510, Next([9])), Timed(580, Next([])), Timed(600, Error(Raised("ex")))] == [Timed(310, Next([4]))] + [] + [Timed(370, Next([5, 6, 7])), Timed(440, Next([8])), Timed(510, Next([9])), Timed(580, Next([])), Timed(600, Error(Raised("ex")))];
    NextStep(E, Window([4], 240), 70, 3, 1000);
    assert Go(E, Window([4], 240), 70, 3, 1000) == Run([Timed(310, Next([4])), Timed(370, Next([5, 6, 7])), Timed(440, Next([8])), Timed(510, Next([9])), Timed(580, Next([])), Timed(600, Error(Raised("ex")))], Window([], 580), 600);
  }

  lemma ErrorFrom5(E: seq<Timed<Notification<int>>>)
    requires E == [Timed(350, Next(6)), Timed(370, Next(7)), Timed(420, Next(8)), Timed(470, Next(9)), Timed(600, Error(Raised("ex")))]
    ensures Go(E, Window([5], 310), 70, 3, 1000) == Run([Timed(370, Next([5, 6, 7])), Timed(440, Next([8])), Timed(510, Next([9])), Timed(580, Next([])), Timed(600, Error(Raised("ex")))], Window([], 580), 600)
  {
    assert [5] + [6] == [5, 6];
    assert E[1..] == [Timed(370, Next(7)), Timed(420, Next(8)), Timed(470, Next(9)), Timed(600, Error(Raised("ex")))];
    ErrorFrom6(E[1..]);
    JoinsBatch(E, Window([5], 310), 70, 3, 1000);
  }

  lemma ErrorFrom6(E: seq<Timed<Notification<int>>>)
    requires E == [Timed(370, Next(7)), Timed(420, Next(8)), Timed(470, Next(9)), Timed(600, Error(Raised("ex")))]
    ensures Go(E, Window([5, 6], 310), 70, 3, 1000) == Run([Timed(370, Next([5, 6, 7])), Timed(440, Next([8])), Timed(510, Next([9])), Timed(580, Next([])), Timed(600, Error(Raised("ex")))], Window([], 580), 600)
  {
    assert [5, 6] + [7] == [5, 6, 7];
    assert E[1..] == [Timed(420, Next(8)), Timed(470, Next(9)), Timed(600, Error(Raised("ex")))];
    ErrorFrom7(E[1..]);
    assert [Timed(370, Next([5, 6, 7])), Timed(440, Next([8])), Timed(510, Next([9])), Timed(580, Next([])), Timed(600, Error(Raised("ex")))] == [Timed(370, Next([5, 6, 7]))] + [Timed(440, Next([8])), Timed(510, Next([9])), Timed(580, Next([])), Timed(600, Error(Raised("ex")))];
    FillsBatch(E, Window([5, 6], 310), 70, 3, 1000);
  }

  lemma ErrorFrom7(E: seq<Timed<Notification<int>>>)
    requires E == [Timed(420, Next(8)), Timed(470, Next(9)), Timed(600, Error(Raised("ex")))]
    ensures Go(E, Window([], 370), 70, 3, 1000) == Run([Timed(440, Next([8])), Timed(510, Next([9])), Timed(580, Next([])), Timed(600, Error(Raised("ex")))], Window([], 580), 600)
  {
    assert [] + [8] == [8];
    assert E[1..] == [Timed(470, Next(9)), Timed(600, Error(Raised("ex")))];
    ErrorFrom8(E[1..]);
    JoinsBatch(E, Window([], 370), 70, 3, 1000);
  }

  lemma ErrorFrom8(E: seq<Timed<Notification<int>>>)
    requires E == [Timed(470, Next(9)), Timed(600, Error(Raised("ex")))]
    ensures Go(E, Window([8], 370), 70, 3, 1000) == Run([Timed(440, Next([8])), Timed(510, Next([9])), Timed(580, Next([])), Timed(600, Error(Raised("ex")))], Window([], 580), 600)
  {
    assert TimerFlushes<int>(Window([8], 370), 70, 470).0 == [Timed(440, Next([8]))];
    assert [] + [9] == [9];
    assert E[1..] == [Timed(600, Error(Raised("ex")))];
    ErrorFrom9(E[1..]);
    assert [Timed(440, Next([8])), Timed(510, Next([9])), Timed(580, Next([])), Timed(600, Error(Raised("ex")))] == [Timed(440, Next([8]))] + [] + [Timed(510, Next([9])), Timed(580, Next([])), Timed(600, Error(Raised("ex")))];
    NextStep(E, Window([8], 370), 70, 3, 1000);
    assert Go(E, Window([8], 370), 70, 3, 1000) == Run([Timed(440, Next([8])), Timed(510, Next([9])), Timed(580, Next([])), Timed(600, Error(Raised("ex")))], Window([], 580), 600);
  }

  lemma ErrorFrom9(E: seq<Timed<Notification<int>>>)
    requires E == [Timed(600, Error(Raised("ex")))]
    ensures Go(E, Window([9], 440), 70, 3, 1000) == Run([Timed(510, Next([9])), Timed(580, Next([])), Timed(600, Error(Raised("ex")))], Window([], 580), 600)
  {
    assert TimerFlushes<int>(Window([], 510), 70, 600).0 == [Timed(580, Next([]))];
    assert TimerFlushes<int>(Window([9], 440), 70, 600).0 == [Timed(510, Next([9])), Timed(580, Next([]))];
    assert Go(E, Window([9], 440), 70, 3, 1000) == Run([Timed(510, Next([9])), Timed(580, Next([])), Timed(600, Error(Raised("ex")))], Window([], 580), 600);
  }


  lemma DisposedFrom0(E: seq<Timed<Notification<int>>>)
    requires E == [Timed(205, Next(1)), Timed(210, Next(2)), Timed(240, Next(3)), Timed(280, Next(4)), Timed(320, Next(5)), Timed(350, Next(6)), Timed(370, Next(7)), Timed(420, Next(8)), Timed(470, Next(9)), Timed(600, Completed)]
    ensures Go(E, Window([], 200), 70, 3, 370) == Run([Timed(240, Next([1, 2, 3])), Timed(310, Next([4])), Timed(370, Next([5, 6, 7]))], Window([], 370), 370)
  {
    assert [] + [1] == [1];
    assert E[1..] == [Timed(210, Next(2)), Timed(240, Next(3)), Timed(280, Next(4)), Timed(320, Next(5)), Timed(350, Next(6)), Timed(370, Next(7)), Timed(420, Next(8)), Timed(470, Next(9)), Timed(600, Completed)];
    DisposedFrom1(E[1..]);
    JoinsBatch(E, Window([], 200), 70, 3, 370);
  }

  lemma DisposedFrom1(E: seq<Timed<Notification<int>>>)
    requires E == [Timed(210, Next(2)), Timed(240, Next(3)), Timed(280, Next(4)), Timed(320, Next(5)), Timed(350, Next(6)), Timed(370, Next(7)), Timed(420, Next(8)), Timed(470, Next(9)), Timed(600, Completed)]
    ensures Go(E, Window([1], 200), 70, 3, 370) == Run([Timed(240, Next([1, 2, 3])), Timed(310, Next([4])), Timed(370, Next([5, 6, 7]))], Window([], 370), 370)
  {
    assert [1] + [2] == [1, 2];
    assert E[1..] == [Timed(240, Next(3)), Timed(280, Next(4)), Timed(320, Next(5)), Timed(350, Next(6)), Timed(370, Next(7)), Timed(420, Next(8)), Timed(470, Next(9)), Timed(600, Completed)];
    DisposedFrom2(E[1..]);
    JoinsBatch(E, Window([1], 200), 70, 3, 370);
  }

  lemma DisposedFrom2(E: seq<Timed<Notification<int>>>)
    requires E == [Timed(240, Next(3)), Timed(280, Next(4)), Timed(320, Next(5)), Timed(350, Next(6)), Timed(370, Next(7)), Timed(420, Next(8)), Timed(470, Next(9)), Timed(600, Completed)]
    ensures Go(E, Window([1, 2], 200), 70, 3, 370) == Run([Timed(240, Next([1, 2, 3])), Timed(310, Next([4])), Timed(370, Next([5, 6, 7]))], Window([], 370), 370)
  {
    assert [1, 2] + [3] == [1, 2, 3];
    assert E[1..] == [Timed(280, Next(4)), Timed(320, Next(5)), Timed(350, Next(6)), Timed(370, Next(7)), Timed(420, Next(8)), Timed(470, Next(9)), Timed(600, Completed)];
    DisposedFrom3(E[1..]);
    assert [Timed(240, Next([1, 2, 3])), Timed(310, Next([4])), Timed(370, Next([5, 6, 7]))] == [Timed(240, Next([1, 2, 3]))] + [Timed(310, Next([4])), Timed(370, Next([5, 6, 7]))];
    FillsBatch(E, Window([1, 2], 200), 70, 3, 370);
  }

  lemma DisposedFrom3(E: seq<Timed<Notification<int>>>)
    requires E == [Timed(280, Next(4)), Timed(320, Next(5)), Timed(350, Next(6)), Timed(370, Next(7)), Timed(420, Next(8)), Timed(470, Next(9)), Timed(600, Completed)]
    ensures Go(E, Window([], 240), 70, 3, 370) == Run([Timed(310, Next([4])), Timed(370, Next([5, 6, 7]))], Window([], 370), 370)
  {
    assert [] + [4] == [4];
    assert E[1..] == [Timed(320, Next(5)), Timed(350, Next(6)), Timed(370, Next(7)), Timed(420, Next(8)), Timed(470, Next(9)), Timed(600, Completed)];
    DisposedFrom4(E[1..]);
    JoinsBatch(E, Window([], 240), 70, 3, 370);
  }

  lemma DisposedFrom4(E: seq<Timed<Notification<int>>>)
    requires E == [Timed(320, Next(5)), Timed(350, Next(6)), Timed(370, Next(7)), Timed(420, Next(8)), Timed(470, Next(9)), Timed(600, Completed)]
    ensures Go(E, Window([4], 240), 70, 3, 370) == Run([Timed(310, Next([4])), Timed(370, Next([5, 6, 7]))], Window([], 370), 370)
  {
    assert TimerFlushes<int>(Window([4], 240), 70, 320).0 == [Timed(310, Next([4]))];
    assert [] + [5] == [5];
    assert E[1..] == [Timed(350, Next(6)), Timed(370, Next(7)), Timed(420, Next(8)), Timed(470, Next(9)), Timed(600, Completed)];
    DisposedFrom5(E[1..]);
    assert [Timed(310, Next([4])), Timed(370, Next([5, 6, 7]))] == [Timed(310, Next([4]))] + [] + [Timed(370, Next([5, 6, 7]))];
    NextStep(E, Window([4], 240), 70, 3, 370);
    assert Go(E, Window([4], 240), 70, 3, 370) == Run([Timed(310, Next([4])), Timed(370, Next([5, 6, 7]))], Window([], 370), 370);
  }

  lemma DisposedFrom5(E: seq<Timed<Notification<int>>>)
    requires E == [Timed(350, Next(6)), Timed(370, Next(7)), Timed(420, Next(8)), Timed(470, Next(9)), Timed(600, Completed)]
    ensures Go(E, Window([5], 310), 70, 3, 370) == Run([Timed(370, Next([5, 6, 7]))], Window([], 370), 370)
  {
    assert [5] + [6] == [5, 6];
    assert E[1..] == [Timed(370, Next(7)), Timed(420, Next(8)), Timed(470, Next(9)), Timed(600, Completed)];
    DisposedFrom6(E[1..]);
    JoinsBatch(E, Window([5], 310), 70, 3, 370);
  }

  lemma DisposedFrom6(E: seq<Timed<Notification<int>>>)
    requires E == [Timed(370, Next(7)), Timed(420, Next(8)), Timed(470, Next(9)), Timed(600, Completed)]
    ensures Go(E, Window([5, 6], 310), 70, 3, 370) == Run([Timed(370, Next([5, 6, 7]))], Window([], 370), 370)
  {
    assert [5, 6] + [7] == [5, 6, 7];
    assert E[1..] == [Timed(420, Next(8)), Timed(470, Next(9)), Timed(600, Completed)];
    DisposedFrom7(E[1..]);
    assert [Timed(370, Next([5, 6, 7]))] == [Timed(370, Next([5, 6, 7]))] + [];
    FillsBatch(E, Window([5, 6], 310), 70, 3, 370);
  }

  lemma DisposedFrom7(E: seq<Timed<Notification<int>>>)
    requires E == [Timed(420, Next(8)), Timed(470, Next(9)), Timed(600, Completed)]
    ensures Go(E, Window([], 370), 70, 3, 370) == Run([], Window([], 370), 370)
  {
    assert E[1..] == [Timed(470, Next(9)), Timed(600, Completed)];
    assert TimerFlushes<int>(Window([], 370), 70, 370).0 == [];
    assert Go(E, Window([], 370), 70, 3, 370) == Run([], Window([], 370), 370);
  }
}
