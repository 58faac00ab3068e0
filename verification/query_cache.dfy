/**
 The query-result cache of the fuzzy highlighter component: its state record and the
 `search` transition that serves a query either from the cache (a hit) or by asking the
 fuzzy matcher once and remembering the answer (a miss).

 The matcher is an uninterpreted pure function from a query to its ranked results. Every
 transition reports the queries it handed to the matcher, in order, so that "the matcher
 is not invoked" and "the matcher is invoked exactly once" are statements about values.
 */
module QueryCache {

  /** A query is compared character by character; there is no normalisation. */
  type Query = string

  /** The external fuzzy matcher: ranked results for a query, in the matcher's own order. */
  type Matcher<R> = Query -> seq<R>

  /** The component's state: the results on show, the cache and the last timing (ms). */
  datatype State<R> = State(results: seq<R>, cache: map<Query, seq<R>>, timing: real)

  /** A step's outcome together with the queries the matcher was invoked with, in order. */
  datatype Transition<S> = Transition(next: S, calls: seq<Query>)

  /** The queries of a call log, as a set. */
  function Elems(log: seq<Query>): (r: set<Query>)
    ensures forall i :: 0 <= i < |log| ==> log[i] in r
    ensures forall q :: q in r ==> exists i :: 0 <= i < |log| && log[i] == q
  {
    set i | 0 <= i < |log| :: log[i]
  }

  /** No query occurs twice in a call log. */
  predicate NoDuplicates(log: seq<Query>)
  {
    forall i, j :: 0 <= i < j < |log| ==> log[i] != log[j]
  }

  /** Every cached entry is exactly what the matcher answers for its key. */
  ghost predicate Memoizes<R>(cache: map<Query, seq<R>>, fuse: Matcher<R>)
  {
    forall q :: q in cache ==> cache[q] == fuse(q)
  }

  /** The state a component starts with, before anything has been searched. */
  function Initial<R>(): (s: State<R>)
    ensures s.results == [] && s.timing == 0.0
    ensures s.cache.Keys == {}
  {
    State([], map[], 0.0)
  }

  /**
   One run of `search` for `query` against the state `s`. On a hit the cached results are
   shown and the timing is 0; on a miss the matcher is asked once, its answer is shown as
   it came and stored under `query`, and the timing is `elapsed`, the measured duration
   that the clock would have given.
   */
  function Search<R>(s: State<R>, query: Query, fuse: Matcher<R>, elapsed: real): (t: Transition<State<R>>)
    // hit: served from the cache, no matcher call, cache untouched
    ensures query in s.cache ==>
              && t.calls == []
              && t.next.results == s.cache[query]
              && t.next.timing == 0.0
              && t.next.cache == s.cache
    // miss: exactly one matcher call, for this query, results in the matcher's order
    ensures query !in s.cache ==>
              && t.calls == [query]
              && t.next.results == fuse(query)
              && t.next.timing == elapsed
    // afterwards the query is cached with what is on show
    ensures query in t.next.cache && t.next.cache[query] == t.next.results
    // the key set grows by exactly the query, and no earlier entry is overwritten
    ensures t.next.cache.Keys == s.cache.Keys + {query}
    ensures forall k :: k in s.cache ==> t.next.cache[k] == s.cache[k]
    // the call log lists exactly the query when, and only when, it was not cached
    ensures Elems(t.calls) == {query} - s.cache.Keys
    ensures NoDuplicates(t.calls)
  {
    if query in s.cache then
      Transition(s.(results := s.cache[query], timing := 0.0), [])
    else
      var results := fuse(query);
      assert Elems([query]) == {query} by { assert [query][0] == query; }
      Transition(State(results, s.cache[query := results], elapsed), [query])
  }

  /** A search keeps the cache faithful to the matcher and shows the matcher's answer. */
  lemma SearchMemoizes<R>(s: State<R>, query: Query, fuse: Matcher<R>, elapsed: real)
    requires Memoizes(s.cache, fuse)
    ensures Memoizes(Search(s, query, fuse, elapsed).next.cache, fuse)
    ensures Search(s, query, fuse, elapsed).next.results == fuse(query)
  {
  }

  /**
   Idempotence: searching the same query twice in a row shows the same results both times,
   and the second search is a hit that costs no matcher call and reports timing 0.
   */
  lemma SearchTwiceIsHit<R>(s: State<R>, query: Query, fuse: Matcher<R>, e1: real, e2: real)
    ensures var t1 := Search(s, query, fuse, e1);
            var t2 := Search(t1.next, query, fuse, e2);
            && t2.next.results == t1.next.results
            && t2.calls == []
            && t2.next.timing == 0.0
            && t2.next.cache == t1.next.cache
  {
  }

  /** A call log without duplicates has as many distinct queries as entries. */
  lemma {:induction false} ElemsCount(log: seq<Query>)
    requires NoDuplicates(log)
    ensures |Elems(log)| == |log|
  {
    if log != [] {
      var rest := log[1..];
      assert NoDuplicates(rest) by {
        forall i, j | 0 <= i < j < |rest|
          ensures rest[i] != rest[j]
        {
          assert rest[i] == log[i + 1] && rest[j] == log[j + 1];
        }
      }
      ElemsCount(rest);
      assert log[0] !in Elems(rest);
      assert Elems(log) == {log[0]} + Elems(rest) by {
        forall q | q in Elems(log)
          ensures q in {log[0]} + Elems(rest)
        {
          var i :| 0 <= i < |log| && log[i] == q;
          if i > 0 {
            assert rest[i - 1] == q;
          }
        }
      }
    }
  }

  /**
   Two call logs with no duplicates each and no query in common join into one with no
   duplicates, whose queries are the union of theirs.
   */
  lemma JoinLogs(a: seq<Query>, b: seq<Query>)
    requires NoDuplicates(a) && NoDuplicates(b)
    requires Elems(a) !! Elems(b)
    ensures NoDuplicates(a + b)
    ensures Elems(a + b) == Elems(a) + Elems(b)
  {
    var ab := a + b;
    forall i, j | 0 <= i < j < |ab|
      ensures ab[i] != ab[j]
    {
      if i < |a| && j >= |a| {
        assert ab[i] in Elems(a);
        assert ab[j] == b[j - |a|];
        assert ab[j] in Elems(b);
      } else if i >= |a| {
        assert ab[i] == b[i - |a|] && ab[j] == b[j - |a|];
      }
    }
    forall q | q in Elems(ab)
      ensures q in Elems(a) + Elems(b)
    {
      var i :| 0 <= i < |ab| && ab[i] == q;
      if i >= |a| {
        assert b[i - |a|] == q;
      }
    }
    forall q | q in Elems(a)
      ensures q in Elems(ab)
    {
      var i :| 0 <= i < |a| && a[i] == q;
      assert ab[i] == q;
    }
    forall q | q in Elems(b)
      ensures q in Elems(ab)
    {
      var i :| 0 <= i < |b| && b[i] == q;
      assert ab[i + |a|] == q;
    }
  }
}
