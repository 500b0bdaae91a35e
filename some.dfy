/**
 * `some`: answers whether the source has an element (or, with a predicate,
 * an element that satisfies it).  The subscription keeps no state: every
 * source signal is answered with fixed signals, and the predicate form is
 * `filter(predicate)` followed by the unconditional form.
 */
module SomeOperator {
  import opened Signals

  /**
   * The signals one source signal triggers: a value answers true and
   * completes (the value itself is ignored); completion answers false and
   * completes; an error is forwarded unchanged.  In the source the
   * completion handler is the callback named `on_error`, passed in the
   * completion slot.
   */
  function Reaction<T>(n: Notification<T>): (r: Stream<bool>)
    ensures WellFormed(r) && r != [] && r[|r| - 1].IsTerminal()
    ensures Values(r) == if n.Error? then [] else [n.Next?]
    ensures n.Error? ==> r[|r| - 1] == Error(n.error)
    ensures !n.Error? ==> r[|r| - 1] == Completed
  {
    match n
    case Next(_) => [Next(true), Completed]
    case Completed => [Next(false), Completed]
    case Error(e) => [Error(e)]
  }

  /** Everything the subscription hands its observer while the source keeps signalling; nothing guards a second answer. */
  function Answers<T>(s: Stream<T>): (r: Stream<bool>)
    decreases |s|
  {
    if s == [] then [] else Reaction(s[0]) + Answers(s[1..])
  }

  /** `filter(predicate)`: values that fail the predicate are dropped; terminals pass. */
  function Filter<T>(p: T -> bool, s: Stream<T>): (r: Stream<T>)
    ensures |r| <= |s|
    decreases |s|
  {
    if s == [] then []
    else if s[0].Next? && !p(s[0].value) then Filter(p, s[1..])
    else [s[0]] + Filter(p, s[1..])
  }

  /** The elements of `xs` that satisfy `p`, in their order. */
  function Satisfying<T>(p: T -> bool, xs: seq<T>): (ys: seq<T>)
    ensures |ys| <= |xs|
    decreases |xs|
  {
    if xs == [] then [] else (if p(xs[0]) then [xs[0]] else []) + Satisfying(p, xs[1..])
  }

  /** The reference filter keeps every satisfying element and nothing else. */
  lemma {:induction false} SatisfyingKeepsExactly<T>(p: T -> bool, xs: seq<T>)
    ensures forall i :: 0 <= i < |Satisfying(p, xs)| ==> Satisfying(p, xs)[i] in xs && p(Satisfying(p, xs)[i])
    ensures forall i :: 0 <= i < |xs| && p(xs[i]) ==> xs[i] in Satisfying(p, xs)
    decreases |xs|
  {
    if xs != [] {
      SatisfyingKeepsExactly(p, xs[1..]);
      assert forall i :: 1 <= i < |xs| ==> xs[i] == xs[1..][i - 1];
    }
  }

  /** The operator: with a predicate, the unconditional form over the filtered source. */
  function Decide<T>(test: Option<T -> bool>, s: Stream<T>): Stream<bool> {
    match test
    case Some(p) => Answers(Filter(p, s))
    case None => Answers(s)
  }

  lemma {:induction false} UpToTerminalKeepsTerminatedPrefix<T>(a: Stream<T>, b: Stream<T>)
    requires a != [] && a[|a| - 1].IsTerminal() && WellFormed(a)
    ensures UpToTerminal(a + b) == a
    decreases |a|
  {
    if |a| > 1 {
      assert (a + b)[1..] == a[1..] + b;
      UpToTerminalKeepsTerminatedPrefix(a[1..], b);
    }
  }

  /** What an auto-detaching observer receives is the answer to the first source signal. */
  lemma FirstSignalDecides<T>(s: Stream<T>)
    requires s != []
    ensures UpToTerminal(Answers(s)) == Reaction(s[0])
  {
    UpToTerminalKeepsTerminatedPrefix(Reaction(s[0]), Answers(s[1..]));
  }

  /** The answer: true as soon as a value arrives, false on completion with none, or the error. */
  function Answer<T>(s: Stream<T>): (r: Stream<bool>)
    requires WellFormed(s) && s != [] && s[|s| - 1].IsTerminal()
  {
    if exists i :: 0 <= i < |s| && s[i].Next? then [Next(true), Completed]
    else if s[|s| - 1].Completed? then [Next(false), Completed]
    else [Error(s[|s| - 1].error)]
  }

  /**
   * Without a predicate, a terminated source is answered with a single
   * boolean then completion, true exactly when the source had an element,
   * or with the source's error when it failed before any element.
   */
  lemma UnconditionalAnswer<T>(s: Stream<T>)
    requires WellFormed(s) && s != [] && s[|s| - 1].IsTerminal()
    ensures UpToTerminal(Decide(None, s)) == Answer(s)
  {
    FirstSignalDecides(s);
    if !s[0].Next? {
      assert |s| == 1;
    }
  }

  /** `filter` keeps exactly the values that satisfy the predicate, in their order. */
  lemma {:induction false} FilterKeepsSatisfyingValues<T>(p: T -> bool, s: Stream<T>)
    ensures Values(Filter(p, s)) == Satisfying(p, Values(s))
    decreases |s|
  {
    if s != [] {
      FilterKeepsSatisfyingValues(p, s[1..]);
      var rest := Filter(p, s[1..]);
      if s[0].Next? && !p(s[0].value) {
        assert Values(s) == [s[0].value] + Values(s[1..]);
        assert Values(s)[1..] == Values(s[1..]);
      } else {
        assert Filter(p, s) == [s[0]] + rest;
        assert ([s[0]] + rest)[1..] == rest;
        if s[0].Next? {
          assert Values(s)[1..] == Values(s[1..]);
        }
      }
    }
  }

  /** `filter` keeps a terminated stream well-formed with its terminal, and keeps some value exactly when some value satisfies the predicate. */
  lemma {:induction false} FilterKeepsShape<T>(p: T -> bool, s: Stream<T>)
    requires WellFormed(s) && s != [] && s[|s| - 1].IsTerminal()
    ensures Filter(p, s) != [] && WellFormed(Filter(p, s))
    ensures Filter(p, s)[|Filter(p, s)| - 1] == s[|s| - 1]
    ensures (exists i :: 0 <= i < |Filter(p, s)| && Filter(p, s)[i].Next?) <==>
            (exists i :: 0 <= i < |s| && s[i].Next? && p(s[i].value))
    decreases |s|
  {
    if |s| > 1 {
      FilterKeepsShape(p, s[1..]);
      var rest := Filter(p, s[1..]);
      if p(s[0].value) {
        assert Filter(p, s)[0] == s[0];
      } else {
        forall i | 0 <= i < |s| && s[i].Next? && p(s[i].value)
          ensures exists j :: 0 <= j < |rest| && rest[j].Next?
        {
          assert s[1..][i - 1] == s[i];
        }
        forall j | 0 <= j < |rest| && rest[j].Next?
          ensures exists i :: 0 <= i < |s| && s[i].Next? && p(s[i].value)
        {
          var k :| 0 <= k < |s[1..]| && s[1..][k].Next? && p(s[1..][k].value);
          assert s[k + 1] == s[1..][k];
        }
      }
      if p(s[0].value) {
        var t := Filter(p, s);
        assert t == [s[0]] + rest;
        forall i | 0 <= i < |s| && s[i].Next? && p(s[i].value)
          ensures exists j :: 0 <= j < |t| && t[j].Next?
        {
          assert t[0].Next?;
        }
      }
    } else {
      assert Filter(p, s) == [s[0]] by {
        assert s[1..] == [];
      }
    }
  }

  /** `filter` keeps the stream well-formed, keeps its terminal and keeps exactly the satisfying values. */
  lemma FilterWellFormed<T>(p: T -> bool, s: Stream<T>)
    requires WellFormed(s) && s != [] && s[|s| - 1].IsTerminal()
    ensures Filter(p, s) != [] && WellFormed(Filter(p, s))
    ensures Filter(p, s)[|Filter(p, s)| - 1] == s[|s| - 1]
    ensures (exists i :: 0 <= i < |Filter(p, s)| && Filter(p, s)[i].Next?) <==>
            (exists i :: 0 <= i < |s| && s[i].Next? && p(s[i].value))
    ensures Values(Filter(p, s)) == Satisfying(p, Values(s))
  {
    FilterKeepsShape(p, s);
    FilterKeepsSatisfyingValues(p, s);
  }

  /**
   * With a predicate, a terminated source is answered with true exactly when
   * some element satisfies it, false when the source completed without one,
   * and with the error when it failed first.
   */
  lemma PredicateAnswer<T>(p: T -> bool, s: Stream<T>)
    requires WellFormed(s) && s != [] && s[|s| - 1].IsTerminal()
    ensures var r := UpToTerminal(Decide(Option.Some(p), s));
      if exists i :: 0 <= i < |s| && s[i].Next? && p(s[i].value) then r == [Next(true), Completed]
      else if s[|s| - 1].Completed? then r == [Next(false), Completed]
      else r == [Error(s[|s| - 1].error)]
  {
    FilterKeepsShape(p, s);
    UnconditionalAnswer(Filter(p, s));
  }

  /** The callbacks keep answering: two values and a completion give three answers. */
  lemma NoGuardAfterTheFirstAnswer()
    ensures Answers([Next(1), Next(2), Completed]) ==
      [Next(true), Completed, Next(true), Completed, Next(false), Completed]
  {
    var s: Stream<int> := [Next(1), Next(2), Completed];
    assert s[1..][1..][1..] == [];
    assert Answers(s[1..][1..]) == [Next(false), Completed];
    assert Answers(s[1..]) == [Next(true), Completed, Next(false), Completed];
  }
}
