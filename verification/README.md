# Query-result cache of the fuzzy highlighter

A Dafny model of the state machine inside the `FuzzyHighlighter` React component. The
component runs a fuzzy search over a data array and keeps a cache from query strings to
result lists. A query seen before is served from the cache with timing 0. A new query is
handed to the fuzzy matcher exactly once, and its answer is stored under that query.
Replacing the data array clears the cache, and then a search runs again.

- `query_cache.dfy` (module `QueryCache`) holds the state record `State(results, cache,
  timing)`, the initial state and the `search` transition. The matcher is an uninterpreted
  pure function `Query -> seq<R>`. Every transition returns a `Transition(next, calls)`.
  `calls` lists the queries the matcher was invoked with, in order. So "not invoked" and
  "invoked exactly once" are properties of a returned value.
- `lifecycle.dfy` (module `Lifecycle`) holds the props, the mounted component, mounting
  (`componentDidMount`), one update (`componentDidUpdate`) and runs of updates. It also
  holds the invariant `Coherent`. This invariant says every cache entry is the matcher's
  answer for its key, and the results on show are the matcher's answer for the current
  query.

Points where the code's behaviour is worth spelling out:

- Replacing the data array does not rebuild the matcher: `this.fuse` is assigned only in
  `componentDidMount` (`src/FuzzyHighlighter.tsx:20`), so later searches use the matcher
  built from the first data array. A change of the data array only clears the cache
  (`src/FuzzyHighlighter.tsx:33-42`). In the model `Component.fuse` never changes after
  `Mount`, and `Step` states that the results after a data change come from the matcher
  built at mount.
- If the query and the data both change in one update, `search` runs twice. The first run
  uses the old cache (line 30). The second runs against the cleared cache (line 39). So the
  matcher can be invoked twice for the same query in one update. `Step` states the exact
  call log for this case.
- React batches the two `setState` calls. The model treats them as a sequence: search,
  clear, search. The end state is the same, because the `{cache: {}}` update replaces the
  cache written by the first search before the callback's search reads it.
- The data array is compared by identity (`!==`), so it is modelled as a `DataRef` token
  and never as its contents. The `options` prop is never compared by
  `componentDidUpdate`, so an update that differs only in its options behaves the same
  (`OptionsNeverRead`).

## Model

| member | source | states |
|---|---|---|
| `QueryCache.Initial` | src/FuzzyHighlighter.tsx:9-15 | The component starts with no results, an empty cache and timing 0. |
| `QueryCache.Search` | src/FuzzyHighlighter.tsx:60-88 | Hit: shows `cache[query]`, timing 0, cache unchanged, matcher not invoked. Miss: matcher invoked exactly once with the query; its answer is shown as it came; timing is the measured duration. Either way the query is then cached with what is shown. The key set grows by exactly the query, and no earlier entry is overwritten. The call log names the query iff it was not cached. |
| `QueryCache.SearchMemoizes` | src/FuzzyHighlighter.tsx:64-83 | If every cache entry is the matcher's answer for its key, this stays true after a search, and the results shown are the matcher's answer for the query. A hit therefore shows what a miss would have shown. |
| `QueryCache.SearchTwiceIsHit` | src/FuzzyHighlighter.tsx:60-88 | Two searches in a row for the same query show identical results. The second is a hit with timing 0, no matcher call and an unchanged cache. |
| `Lifecycle.Mount` | src/FuzzyHighlighter.tsx:18-26 | Mounting keeps the matcher it was given and runs one search on an empty cache. That search is a miss: one matcher call for the current query. The cache then holds only that query's entry, and the component is coherent. |
| `Lifecycle.Step` | src/FuzzyHighlighter.tsx:28-43 | The matcher is never rebuilt. If neither query nor data changed, the state is untouched and the matcher is not invoked. With the same data, the cache only gains keys from the call log; every entry is kept; the matcher runs at most once and only for an uncached query. With the same data and a new query, a hit shows the cached results with timing 0, makes no matcher call and leaves the cache unchanged; a miss calls the matcher once, shows its answer, stores it under the query and reports the query search's measured timing. With new data, every earlier entry is dropped; the current query is a forced miss whose answer is the only entry; the last call is that query. If the query changed too, the first search sees the old cache, and the exact call log is stated. |
| `Lifecycle.StepPreservesCoherent` | src/FuzzyHighlighter.tsx:28-43 | Every update keeps the component coherent: cached entries are the matcher's answers, the current query is cached, and the results shown are the matcher's answer for it. |
| `Lifecycle.OptionsNeverRead` | src/FuzzyHighlighter.tsx:28-43 | Updates never read the options prop: two updates that differ only in their options make the same matcher calls and leave the same state. |
| `Lifecycle.UndoQueryIsHit` | src/FuzzyHighlighter.tsx:29-30 | Changing the query and then changing it back, with the same data, makes the second update a hit. It shows the earlier results, reports timing 0 and invokes no matcher. |
| `Lifecycle.Run` | src/FuzzyHighlighter.tsx:28-43 | A sequence of updates keeps the mount-time matcher and ends with the last update's props. |
| `Lifecycle.RunPreservesCoherent` | src/FuzzyHighlighter.tsx:28-43 | After any sequence of updates from a coherent component, the results shown are the mount-time matcher's answer for the current query. This holds whether they came from the cache or not. |
| `Lifecycle.SameDataRunGrowsCache` | src/FuzzyHighlighter.tsx:64-83 | While the data is unchanged, the cache keys only grow, by exactly the queries in the call log. No entry is removed or overwritten. The matcher is never invoked for a query already cached, and never twice for the same query. The cache gains exactly one entry per invocation. |

## Left out

- Rendering and the `children` render-prop call (`src/FuzzyHighlighter.tsx:45-58`): presentation only.
- `formatResults` and the match-range-to-highlight-segment formatter: its file, `src/formatResults`, is not part of this model.
- Construction of the fuzzy-search library's matcher from the data and options. This includes forcing `shouldSort` and `includeMatches` (`src/FuzzyHighlighter.tsx:20-24`). It is an external library, so the matcher is a function parameter of `Mount`.
- The miss-path timing: two clock reads and `parseFloat((end - start).toFixed(3))` (`src/FuzzyHighlighter.tsx:73-76, 85`). Clock reads are I/O and the rounding is floating point. The measured value is a `real` parameter (`elapsed`, `queryElapsed`, `dataElapsed`). Only "a hit reports 0" is stated.
- Asynchronous `setState` batching and callback scheduling: updates are sequential atomic transitions, as described above.
- JavaScript object-key behaviour of the `{}` cache and `hasOwnProperty`: cache keys are plain strings compared for exact equality. The model therefore does not show this consequence: once the query `"hasOwnProperty"` is cached, the cache has its own property of that name, so `Object(cache).hasOwnProperty(query)` (`src/FuzzyHighlighter.tsx:64`) finds the cached results array instead of the inherited method and every later search with the same data throws a TypeError. How a `__proto__` query behaves depends on how the object spread at lines 80-83 is compiled, and is not modelled either.
- Failures thrown by the matcher: the matcher is a total pure function here, so there is no error path to propagate.
