/**
 The lifecycle of the fuzzy highlighter component: mounting builds the matcher from the
 props once and runs a search; every later update compares the new props with the previous
 ones and runs a search when the query changed, and clears the cache and runs another
 search when the data array was replaced.

 React's asynchronous `setState` batching is read as a sequence of atomic steps: the
 search for a changed query runs against the old cache, the cache is then cleared, and the
 search scheduled in the `setState` callback runs against the cleared cache.
 */
module Lifecycle {
  import opened QueryCache

  /** The identity of the data array. Updates compare it by reference, never by contents. */
  type DataRef = nat

  /** The component's props. `options` only feeds the matcher's construction at mount. */
  datatype Props<O> = Props(query: Query, data: DataRef, options: O)

  /** A mounted component: its current props, its state and the matcher built at mount. */
  datatype Component<R, O> = Component(props: Props<O>, state: State<R>, fuse: Matcher<R>)

  /**
   One update: the new props and the two durations the clock would report for the search
   run because the query changed and for the one run after the cache is cleared.
   */
  datatype Update<O> = Update(props: Props<O>, queryElapsed: real, dataElapsed: real)

  /**
   What a mounted component keeps true: every cache entry is the matcher's answer for its
   key, the current query is cached, and the results on show are the matcher's answer for
   the current query.
   */
  ghost predicate Coherent<R, O>(c: Component<R, O>)
  {
    && Memoizes(c.state.cache, c.fuse)
    && c.props.query in c.state.cache
    && c.state.results == c.fuse(c.props.query)
  }

  /**
   Mounting: the initial state, the matcher `fuse` that the fuzzy-search library builds
   from the data and options, and a first search for the current query.
   */
  function Mount<R, O>(props: Props<O>, fuse: Matcher<R>, elapsed: real): (t: Transition<Component<R, O>>)
    ensures t.next.props == props && t.next.fuse == fuse
    // the cache starts empty, so the first search is a miss
    ensures t.calls == [props.query]
    ensures t.next.state.cache == map[props.query := fuse(props.query)]
    ensures t.next.state.results == fuse(props.query)
    ensures t.next.state.timing == elapsed
    ensures Coherent(t.next)
  {
    var s := Search(Initial(), props.query, fuse, elapsed);
    Transition(Component(props, s.next, fuse), s.calls)
  }

  /**
   `componentDidUpdate` after the props changed to `u.props`. The matcher is never rebuilt:
   it stays the one made at mount, even when the data array is replaced.
   */
  function Step<R, O>(c: Component<R, O>, u: Update<O>): (t: Transition<Component<R, O>>)
    ensures t.next.props == u.props && t.next.fuse == c.fuse
    // neither query nor data changed: nothing happens
    ensures c.props.query == u.props.query && c.props.data == u.props.data ==>
              t.next.state == c.state && t.calls == []
    // same data: the cache only gains the query, and the matcher runs only for a new query
    ensures c.props.data == u.props.data ==>
              && t.next.state.cache.Keys == c.state.cache.Keys + Elems(t.calls)
              && (forall k :: k in c.state.cache ==> t.next.state.cache[k] == c.state.cache[k])
              && Elems(t.calls) !! c.state.cache.Keys
              && NoDuplicates(t.calls)
              && |t.calls| <= 1
    // same data, new query: the search's hit or miss decides what is shown
    ensures c.props.data == u.props.data && c.props.query != u.props.query ==>
              && (u.props.query in c.state.cache ==>
                    && t.calls == []
                    && t.next.state.results == c.state.cache[u.props.query]
                    && t.next.state.timing == 0.0
                    && t.next.state.cache == c.state.cache)
              && (u.props.query !in c.state.cache ==>
                    && t.calls == [u.props.query]
                    && t.next.state.results == c.fuse(u.props.query)
                    && t.next.state.timing == u.queryElapsed
                    && t.next.state.cache == c.state.cache[u.props.query := c.fuse(u.props.query)])
    // new data: every earlier entry is dropped and the current query is a forced miss
    ensures c.props.data != u.props.data ==>
              && t.next.state.cache == map[u.props.query := c.fuse(u.props.query)]
              && t.next.state.results == c.fuse(u.props.query)
              && t.next.state.timing == u.dataElapsed
              && |t.calls| >= 1 && t.calls[|t.calls| - 1] == u.props.query
    // new data and new query: the first search still sees the old cache
    ensures c.props.data != u.props.data && c.props.query != u.props.query ==>
              t.calls == (if u.props.query in c.state.cache then [] else [u.props.query]) + [u.props.query]
    ensures c.props.data != u.props.data && c.props.query == u.props.query ==>
              t.calls == [u.props.query]
  {
    var query := u.props.query;
    var first :=
      if c.props.query != query then Search(c.state, query, c.fuse, u.queryElapsed)
      else Transition(c.state, []);
    if c.props.data == u.props.data then
      Transition(c.(props := u.props, state := first.next), first.calls)
    else
      var second := Search(first.next.(cache := map[]), query, c.fuse, u.dataElapsed);
      Transition(c.(props := u.props, state := second.next), first.calls + second.calls)
  }

  /** An update preserves coherence, so what is shown is always the matcher's answer. */
  lemma StepPreservesCoherent<R, O>(c: Component<R, O>, u: Update<O>)
    requires Coherent(c)
    ensures Coherent(Step(c, u).next)
  {
  }

  /**
   Updates never read the options prop: an update that differs only in its options makes
   the same matcher calls and leaves the same state.
   */
  lemma OptionsNeverRead<R, O>(c: Component<R, O>, u: Update<O>, other: O)
    ensures var t, t' := Step(c, u), Step(c, u.(props := u.props.(options := other)));
            t'.next.state == t.next.state && t'.calls == t.calls
  {
  }

  /**
   Typing a character and deleting it again with the same data: the second update is a
   cache hit that shows the results from before, with timing 0 and no matcher call.
   */
  lemma UndoQueryIsHit<R, O>(c: Component<R, O>, u: Update<O>, back: Update<O>)
    requires Coherent(c)
    requires u.props.data == c.props.data && u.props.query != c.props.query
    requires back.props.data == c.props.data && back.props.query == c.props.query
    ensures var t := Step(Step(c, u).next, back);
            && t.calls == []
            && t.next.state.results == c.state.results
            && t.next.state.timing == 0.0
  {
  }

  /** A sequence of updates applied in order, the call logs joined. */
  function Run<R, O>(c: Component<R, O>, us: seq<Update<O>>): (t: Transition<Component<R, O>>)
    decreases |us|
    ensures t.next.fuse == c.fuse
    ensures us == [] ==> t.next == c && t.calls == []
    ensures us != [] ==> t.next.props == us[|us| - 1].props
  {
    if us == [] then Transition(c, [])
    else
      var first := Step(c, us[0]);
      var rest := Run(first.next, us[1..]);
      assert |us| > 1 ==> us[1..][|us| - 2] == us[|us| - 1];
      Transition(rest.next, first.calls + rest.calls)
  }

  /**
   Cache transparency: after any sequence of updates the results on show are exactly what
   the matcher built at mount answers for the current query, whether they came from the
   cache or not, and every cached entry is the matcher's answer.
   */
  lemma {:induction false} RunPreservesCoherent<R, O>(c: Component<R, O>, us: seq<Update<O>>)
    requires Coherent(c)
    ensures Coherent(Run(c, us).next)
    ensures Run(c, us).next.state.results == c.fuse(Run(c, us).next.props.query)
    decreases |us|
  {
    if us != [] {
      StepPreservesCoherent(c, us[0]);
      RunPreservesCoherent(Step(c, us[0]).next, us[1..]);
    }
  }

  /** Every update in `us` keeps the data array `d`. */
  predicate SameData<O>(us: seq<Update<O>>, d: DataRef)
  {
    forall i :: 0 <= i < |us| ==> us[i].props.data == d
  }

  /**
   Between data changes the cache only grows: no entry is removed or overwritten, the
   matcher is invoked at most once per distinct query and never for a query already cached,
   and each invocation adds exactly one entry.
   */
  lemma {:induction false} SameDataRunGrowsCache<R, O>(c: Component<R, O>, us: seq<Update<O>>)
    requires SameData(us, c.props.data)
    ensures var t := Run(c, us);
            && t.next.state.cache.Keys == c.state.cache.Keys + Elems(t.calls)
            && (forall k :: k in c.state.cache ==> t.next.state.cache[k] == c.state.cache[k])
            && Elems(t.calls) !! c.state.cache.Keys
            && NoDuplicates(t.calls)
            && |t.next.state.cache| == |c.state.cache| + |t.calls|
    decreases |us|
  {
    var t := Run(c, us);
    if us == [] {
      assert Elems(t.calls) == {};
    } else {
      var first := Step(c, us[0]);
      var rest := us[1..];
      assert SameData(rest, first.next.props.data) by {
        forall i | 0 <= i < |rest|
          ensures rest[i].props.data == first.next.props.data
        {
          assert rest[i] == us[i + 1];
        }
      }
      var r := Run(first.next, rest);
      assert t.next == r.next && t.calls == first.calls + r.calls;
      SameDataRunGrowsCache(first.next, rest);
      ComposeGrowth(c.state.cache, first.next.state.cache, r.next.state.cache, first.calls, r.calls);
      GrowthCount(c.state.cache, t.next.state.cache, t.calls);
    }
  }

  /** The cache-growth facts of two consecutive stretches of updates combine. */
  lemma ComposeGrowth<R>(before: map<Query, seq<R>>, middle: map<Query, seq<R>>, after: map<Query, seq<R>>,
                         a: seq<Query>, b: seq<Query>)
    requires middle.Keys == before.Keys + Elems(a) && Elems(a) !! before.Keys && NoDuplicates(a)
    requires forall k :: k in before ==> middle[k] == before[k]
    requires after.Keys == middle.Keys + Elems(b) && Elems(b) !! middle.Keys && NoDuplicates(b)
    requires forall k :: k in middle ==> after[k] == middle[k]
    ensures after.Keys == before.Keys + Elems(a + b)
    ensures forall k :: k in before ==> after[k] == before[k]
    ensures Elems(a + b) !! before.Keys
    ensures NoDuplicates(a + b)
  {
    JoinLogs(a, b);
  }

  /**
   When the keys gained are exactly the queries of a call log without duplicates, none of
   them cached before, the cache grew by one entry per call.
   */
  lemma GrowthCount<R>(before: map<Query, seq<R>>, after: map<Query, seq<R>>, log: seq<Query>)
    requires after.Keys == before.Keys + Elems(log) && Elems(log) !! before.Keys
    requires NoDuplicates(log)
    ensures |after| == |before| + |log|
  {
    ElemsCount(log);
    assert |before.Keys + Elems(log)| == |before.Keys| + |Elems(log)|;
    assert |after| == |after.Keys| && |before| == |before.Keys|;
  }
}
