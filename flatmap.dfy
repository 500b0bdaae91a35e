/**
 * `flat_map`, `flat_map_indexed` and `flat_map_latest`: each source value is
 * projected to an inner source, and the inner sources are merged (or
 * switched, for the latest form).  The projection adapts what the mapper
 * returned: a future through `from_future`, an iterable through `from_`,
 * anything else unchanged.  `merge_all` and `switch_latest` are not part of
 * this model; they are parameters.
 */
module FlatMap {
  import opened Signals

  /**
   * A Python value returned by a mapper, described by what it can do: be
   * awaited as a future, be iterated, be subscribed to.  Its fields are
   * independent because a value can have several capabilities at once (an
   * asyncio future is also iterable).
   */
  datatype Returned<T> = Returned(future: Option<Future<T>>, iterable: Option<seq<T>>, observable: Option<Stream<T>>)

  /** Python's `None`. */
  function NoneValue<T>(): Returned<T> {
    Returned(None, None, None)
  }

  /** An inner source as `merge_all` receives it: an adapted observable, or the mapper's result as it was. */
  datatype Inner<T> = Adapted(signals: Stream<T>) | Unchanged(value: Returned<T>)

  /** The adaptation in `projection`: the future check comes first, then the iterable check. */
  function Adapt<T>(r: Returned<T>): (inner: Inner<T>)
    ensures inner.Adapted? <==> (r.future.Some? || r.iterable.Some?)
    ensures inner.Unchanged? ==> inner.value == r
  {
    if r.future.Some? then Adapted(FromFuture(r.future.value))
    else if r.iterable.Some? then Adapted(FromIterable(r.iterable.value))
    else Unchanged(r)
  }

  /** `projection(x, i)`: the plain mapper wins, then the indexed mapper, else `None`. */
  function Projection<A, B>(mapper: Option<A -> Returned<B>>, mapperIndexed: Option<(A, nat) -> Returned<B>>,
                            x: A, i: nat): Inner<B>
  {
    var result :=
      if mapper.Some? then mapper.value(x)
      else if mapperIndexed.Some? then mapperIndexed.value(x, i)
      else NoneValue();
    Adapt(result)
  }

  /** `projection` as the function value handed to `map_indexed`. */
  function Projector<A, B>(mapper: Option<A -> Returned<B>>, mapperIndexed: Option<(A, nat) -> Returned<B>>)
    : (A, nat) -> Inner<B>
  {
    (x: A, i: nat) => Projection(mapper, mapperIndexed, x, i)
  }

  /** The number of values in `s`: the index `map_indexed` gives the next value. */
  function CountValues<T>(s: Stream<T>): nat {
    |Values(s)|
  }

  /** `map_indexed(projection)`: each value is projected with its position among the values; terminals pass. */
  function MapIndexed<A, B>(project: (A, nat) -> Inner<B>, s: Stream<A>): (r: Stream<Inner<B>>)
    ensures |r| == |s|
    ensures forall k :: 0 <= k < |s| ==> r[k].Next? == s[k].Next?
    ensures forall k :: 0 <= k < |s| && s[k].IsTerminal() ==> r[k] == if s[k].Error? then Error(s[k].error) else Completed
    decreases |s|
  {
    if s == [] then []
    else
      var init := s[..|s| - 1];
      var rest := MapIndexed(project, init);
      match s[|s| - 1]
      case Next(x) => rest + [Next(project(x, CountValues(init)))]
      case Error(e) => rest + [Error(e)]
      case Completed => rest + [Completed]
  }

  /** `_flat_map_internal`: `map_indexed(projection)` followed by `merge_all`. */
  function FlatMapInternal<A, B>(mergeAll: Stream<Inner<B>> -> Stream<B>,
                                 mapper: Option<A -> Returned<B>>, mapperIndexed: Option<(A, nat) -> Returned<B>>,
                                 s: Stream<A>): Stream<B>
  {
    mergeAll(MapIndexed(Projector(mapper, mapperIndexed), s))
  }

  /** The argument of `flat_map`/`flat_map_indexed`: a callable, or any other value used as every element's result. */
  datatype Argument<F, B> = Callable(f: F) | Constant(value: Returned<B>)

  /** `lambda _: value`, the mapper built from a constant argument. */
  function Always<A, B>(value: Returned<B>): A -> Returned<B> {
    _ => value
  }

  /** `_flat_map`. */
  function FlatMapOp<A, B>(mergeAll: Stream<Inner<B>> -> Stream<B>, mapper: Argument<A -> Returned<B>, B>,
                           s: Stream<A>): Stream<B>
  {
    match mapper
    case Callable(f) => FlatMapInternal(mergeAll, Some(f), None, s)
    case Constant(v) => FlatMapInternal(mergeAll, Some(Always(v)), None, s)
  }

  /** `_flat_map_indexed`: the constant fallback is passed as the plain mapper. */
  function FlatMapIndexedOp<A, B>(mergeAll: Stream<Inner<B>> -> Stream<B>,
                                  mapperIndexed: Argument<(A, nat) -> Returned<B>, B>, s: Stream<A>): Stream<B>
  {
    match mapperIndexed
    case Callable(g) => FlatMapInternal(mergeAll, None, Some(g), s)
    case Constant(v) => FlatMapInternal(mergeAll, Some(Always(v)), None, s)
  }

  /** `map(mapper)`: each value is mapped; terminals pass. */
  function Map<A, B>(f: A -> B, s: Stream<A>): (r: Stream<B>)
    ensures |r| == |s|
    ensures forall k :: 0 <= k < |s| ==> r[k] == match s[k] case Next(x) => Next(f(x)) case Error(e) => Error(e) case Completed => Completed
  {
    seq(|s|, k requires 0 <= k < |s| => match s[k] case Next(x) => Next(f(x)) case Error(e) => Error(e) case Completed => Completed)
  }

  /** `_flat_map_latest`: `map(mapper)` followed by `switch_latest`, with no adaptation of the mapper's results. */
  function FlatMapLatest<A, B>(switchLatest: Stream<Returned<B>> -> Stream<B>, mapper: A -> Returned<B>,
                               s: Stream<A>): Stream<B>
  {
    switchLatest(Map(mapper, s))
  }

  /** A future is adapted with `from_future` even when it is also iterable. */
  lemma FutureTakesPriority<T>(f: Future<T>, iterable: Option<seq<T>>, observable: Option<Stream<T>>)
    ensures Adapt(Returned(Some(f), iterable, observable)) == Adapted(FromFuture(f))
  {
  }

  /** A non-future iterable is adapted with `from_`. */
  lemma IterableIsAdapted<T>(xs: seq<T>, observable: Option<Stream<T>>)
    ensures Adapt(Returned(None, Some(xs), observable)) == Adapted(FromIterable(xs))
    ensures Values(Adapt(Returned(None, Some(xs), observable)).signals) == xs
  {
    ValuesOfFromIterable(xs);
  }

  /** With a plain mapper the index plays no part, whatever the indexed mapper is. */
  lemma PlainMapperIgnoresIndex<A, B>(f: A -> Returned<B>, mapperIndexed: Option<(A, nat) -> Returned<B>>,
                                      x: A, i: nat, j: nat)
    ensures Projection(Some(f), mapperIndexed, x, i) == Projection(Some(f), mapperIndexed, x, j) == Adapt(f(x))
  {
  }

  /** Without a plain mapper, the indexed mapper receives the index; with neither, the result is `None`. */
  lemma IndexedMapperGetsIndex<A, B>(mapperIndexed: Option<(A, nat) -> Returned<B>>, x: A, i: nat)
    ensures Projection(None, mapperIndexed, x, i) ==
      if mapperIndexed.Some? then Adapt(mapperIndexed.value(x, i)) else Unchanged(NoneValue())
  {
  }

  /** The k-th value of the mapped stream is the projection of the k-th source value with index k. */
  lemma {:induction false} MapIndexedPassesPositions<A, B>(project: (A, nat) -> Inner<B>, s: Stream<A>)
    ensures |Values(MapIndexed(project, s))| == |Values(s)|
    ensures forall k :: 0 <= k < |Values(s)| ==> Values(MapIndexed(project, s))[k] == project(Values(s)[k], k)
    decreases |s|
  {
    if s != [] {
      var init, n := s[..|s| - 1], s[|s| - 1];
      assert s == init + [n];
      MapIndexedPassesPositions(project, init);
      MapIndexedSnoc(project, init, n);
      var vs, ms := Values(init), Values(MapIndexed(project, init));
      forall k | 0 <= k < |vs|
        ensures Values(MapIndexed(project, s))[k] == project(Values(s)[k], k)
      {
        assert Values(s)[k] == vs[k] && Values(MapIndexed(project, s))[k] == ms[k];
      }
    }
  }

  /** One more source signal adds at most one mapped value, projected with the count of values before it. */
  lemma MapIndexedSnoc<A, B>(project: (A, nat) -> Inner<B>, init: Stream<A>, n: Notification<A>)
    ensures Values(init + [n]) == Values(init) + (if n.Next? then [n.value] else [])
    ensures Values(MapIndexed(project, init + [n])) ==
      Values(MapIndexed(project, init)) + (if n.Next? then [project(n.value, |Values(init)|)] else [])
  {
    var s := init + [n];
    assert s[..|s| - 1] == init;
    ValuesSnoc(init, n);
    var rest := MapIndexed(project, init);
    match n
    case Next(x) =>
      ValuesSnoc(rest, Next(project(x, CountValues(init))));
    case Error(e) =>
      ValuesSnoc(rest, Error(e));
    case Completed =>
      ValuesSnoc(rest, Completed);
  }

  /**
   * A constant argument gives every source value the same inner source, the
   * adapted constant, whatever `flat_map` variant received it.
   */
  lemma ConstantIsEveryResult<A, B>(mergeAll: Stream<Inner<B>> -> Stream<B>, v: Returned<B>, s: Stream<A>)
    ensures FlatMapOp(mergeAll, Constant(v), s) == mergeAll(MapIndexed(Projector(Some(Always(v)), None), s))
    ensures var vs := Values(MapIndexed(Projector(Some(Always<A, B>(v)), None), s));
      |vs| == |Values(s)| && forall k :: 0 <= k < |vs| ==> vs[k] == Adapt(v)
  {
    MapIndexedPassesPositions(Projector(Some(Always<A, B>(v)), None), s);
  }

  /** `flat_map` and `flat_map_indexed` treat a constant argument alike. */
  lemma ConstantFallbacksAgree<A, B>(mergeAll: Stream<Inner<B>> -> Stream<B>, v: Returned<B>, s: Stream<A>)
    ensures FlatMapOp(mergeAll, Constant(v), s) == FlatMapIndexedOp(mergeAll, Constant(v), s)
  {
  }

  lemma {:induction false} MapIndexedPointwise<A, B>(p: (A, nat) -> Inner<B>, q: (A, nat) -> Inner<B>, s: Stream<A>)
    requires forall x, i :: p(x, i) == q(x, i)
    ensures MapIndexed(p, s) == MapIndexed(q, s)
    decreases |s|
  {
    if s != [] {
      MapIndexedPointwise(p, q, s[..|s| - 1]);
    }
  }

  /** `flat_map` with a callable is `flat_map_indexed` with a mapper that drops the index. */
  lemma PlainIsIndexedWithoutIndex<A, B>(mergeAll: Stream<Inner<B>> -> Stream<B>, f: A -> Returned<B>, s: Stream<A>)
    ensures FlatMapOp(mergeAll, Callable(f), s) == FlatMapIndexedOp(mergeAll, Callable((x, _) => f(x)), s)
  {
    var g := (y: A, _: nat) => f(y);
    MapIndexedPointwise(Projector(Some(f), None), Projector(None, Some(g)), s);
  }

  /** The k-th value `map` hands on is the mapper's result for the k-th source value. */
  lemma {:induction false} MapPassesValues<A, B>(f: A -> B, s: Stream<A>)
    ensures |Values(Map(f, s))| == |Values(s)|
    ensures forall k :: 0 <= k < |Values(s)| ==> Values(Map(f, s))[k] == f(Values(s)[k])
    decreases |s|
  {
    if s != [] {
      var init, n := s[..|s| - 1], s[|s| - 1];
      assert s == init + [n];
      var m := Map(f, init);
      var last: Stream<B> := match n case Next(x) => [Next(f(x))] case Error(e) => [Error(e)] case Completed => [Completed];
      assert Map(f, s) == m + last;
      MapPassesValues(f, init);
      ValuesSnoc(init, n);
      ValuesSnoc(m, last[0]);
      assert m + last == m + [last[0]];
    }
  }

  /**
   * `flat_map_latest` hands `switch_latest` the mapper's own results, one per
   * source value and in order, with no adaptation; `flat_map` hands `merge_all`
   * their adaptation.
   */
  lemma LatestDoesNotAdapt<A, B>(switchLatest: Stream<Returned<B>> -> Stream<B>, mergeAll: Stream<Inner<B>> -> Stream<B>,
                                 mapper: A -> Returned<B>, s: Stream<A>)
    ensures FlatMapLatest(switchLatest, mapper, s) == switchLatest(Map(mapper, s))
    ensures |Values(Map(mapper, s))| == |Values(s)|
    ensures forall k :: 0 <= k < |Values(s)| ==> Values(Map(mapper, s))[k] == mapper(Values(s)[k])
    ensures FlatMapOp(mergeAll, Callable(mapper), s) == mergeAll(MapIndexed(Projector(Some(mapper), None), s))
    ensures var vs := Values(MapIndexed(Projector(Some(mapper), None), s));
      |vs| == |Values(s)| && forall k :: 0 <= k < |vs| ==> vs[k] == Adapt(mapper(Values(s)[k]))
  {
    MapPassesValues(mapper, s);
    MapIndexedPassesPositions(Projector(Some(mapper), None), s);
  }
}
