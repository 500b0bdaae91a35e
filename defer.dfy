/**
 * `defer`: every subscription calls the factory with the subscribing
 * scheduler and subscribes the observer to what it produced; a future is
 * first adapted with `from_future`, and an exception raised by the factory
 * is delivered to the observer as an error instead of escaping `subscribe`.
 */
module Defer {
  import opened Signals

  /** A scheduler, identified by a number; `None` is "no scheduler given". */
  type Scheduler = Option<nat>

  /** The outcome of one factory call. */
  datatype Produced<T> = Threw(exception: Exception) | GaveFuture(future: Future<T>) | GaveObservable(signals: Stream<T>)

  /** Which signals the observer is subscribed to, and with which scheduler the inner subscribe is made. */
  datatype Subscription<T> = Subscription(signals: Stream<T>, scheduler: Scheduler)

  /**
   * `subscribe(observer, scheduler)`: one factory call, then one inner
   * subscription. The scheduler is passed on only when the factory returned,
   * and a well-formed produced observable reaches the observer well-formed.
   */
  function Subscribe<T>(factory: Scheduler -> Produced<T>, scheduler: Scheduler): (r: Subscription<T>)
    ensures r.scheduler == if factory(scheduler).Threw? then None else scheduler
    ensures (factory(scheduler).GaveObservable? ==> WellFormed(factory(scheduler).signals)) ==> WellFormed(r.signals)
    ensures !factory(scheduler).GaveObservable? && r.signals != [] ==> r.signals[|r.signals| - 1].IsTerminal()
  {
    match factory(scheduler)
    case Threw(ex) => Subscription(Throw(ex), None)      // throw(ex).subscribe(observer): no scheduler passed
    case GaveFuture(f) => Subscription(FromFuture(f), scheduler)
    case GaveObservable(s) => Subscription(s, scheduler)
  }

  /** A subscription depends on nothing but the factory's answer for the subscribing scheduler. */
  lemma DependsOnlyOnTheAnswer<T>(f: Scheduler -> Produced<T>, g: Scheduler -> Produced<T>, scheduler: Scheduler)
    requires f(scheduler) == g(scheduler)
    ensures Subscribe(f, scheduler) == Subscribe(g, scheduler)
  {
  }

  /** A factory exception reaches the observer as its only signal, an error. */
  lemma FactoryExceptionIsDelivered<T>(factory: Scheduler -> Produced<T>, scheduler: Scheduler, e: Exception)
    requires factory(scheduler) == Threw(e)
    ensures Subscribe(factory, scheduler) == Subscription([Error(e)], None)
    ensures Values(Subscribe(factory, scheduler).signals) == []
  {
    assert Throw<T>(e)[1..] == [];
  }

  /** A future is adapted with `from_future` and subscribed with the subscribing scheduler. */
  lemma FutureIsAdapted<T>(factory: Scheduler -> Produced<T>, scheduler: Scheduler, f: Future<T>)
    requires factory(scheduler) == GaveFuture(f)
    ensures Subscribe(factory, scheduler) == Subscription(FromFuture(f), scheduler)
  {
  }

  /** An observable is subscribed as it is, with the same scheduler. */
  lemma ObservableIsSubscribedAsIs<T>(factory: Scheduler -> Produced<T>, scheduler: Scheduler, s: Stream<T>)
    requires factory(scheduler) == GaveObservable(s)
    ensures Subscribe(factory, scheduler) == Subscription(s, scheduler)
  {
  }

  /** A resolved future delivers its value once, then completes. */
  lemma ResolvedFutureDeliversValue<T>(factory: Scheduler -> Produced<T>, scheduler: Scheduler, v: T)
    requires factory(scheduler) == GaveFuture(Resolved(v))
    ensures Values(Subscribe(factory, scheduler).signals) == [v]
    ensures Subscribe(factory, scheduler).scheduler == scheduler
  {
    var s: Stream<T> := [Next(v), Completed];
    assert s[1..][1..] == [];
  }
}
