# JanusOLAP core in Dafny

This project models the analytical core of JanusOLAP, a Java program that
loads call-detail records into a JanusGraph property graph and then answers
two families of questions over it.

- **OLAP operations as graph rewrites** (`Operations.java`): *climb* redirects
  every edge that ends at a vertex of a bottom level of a dimension
  hierarchy (phone, timestamp) to that vertex's ancestor on a higher level
  (user, month, allTimes) and deletes the levels in between that nothing
  points at any more; *minimize* merges call facts that now have identical
  dimension edges, concatenating their durations; *aggregate* reduces each
  call's duration list with AVG, SUM, MAX, MIN or COUNT; *rollUp* chains the
  three; *diceEquals*/*diceNotEquals* delete a slice of a level together
  with everything that hangs below it.
- **Pairwise call metrics** (`QueriesNotOlap.java`, `QueriesOlap.java`,
  `App.java`): each query files every call under keys built from its
  phones, users or months (pairs, triples, path ends), aggregates the
  durations of each bucket, and prints each key once in a canonical order.
- **Shortest social distance between users** (`FinalQueriesKnownAlgorithms.java`,
  `FinalQueriesNotOlap.java`): hop counts between phones that shared a
  call, by Floyd–Warshall, by a bounded Dijkstra search from one user's
  phones, or by a breadth-first Gremlin traversal; then projected to a
  user-by-user table of minimum distances, optionally filtered
  (`QueryFilters.java`) and printed (`PrintUtils.java`).
- **Ingestion** (`DataReader.java`): the users, date-times and calls files,
  already split into fields, become the location, operator and time
  hierarchies and the call facts.
- **Graph helpers** (`GraphUtils.java`): the parent of a vertex on a level,
  the user and city of a phone, the phone ids of a user, neighbour phones.

The graph is a value-level `map<VId, Vertex>` plus a `seq<Edge>` held by the
class `Graph.PropertyGraph`, whose methods add and remove vertices and edges
in place. Operations that the Java code performs by mutating the graph or a
`HashMap` step by step are methods with loops and invariants, each proved
against a specification predicate or function (`Climb.Climbed`,
`Minimize.Minimized`, `Dice.Purged`, `FloydWarshall.Rounds`,
`DistanceTables.MinTable`, `Buckets.Grouped`, `Emission.Reports`); what the
source promises is proved as lemmas about those specifications. Java
`HashMap`/`HashSet` iteration order is not fixed, so loops over them are
proved for every order (they pick an arbitrary remaining element).
Exceptions the Java code can throw (`NoSuchElementException` from `next()`,
a `NullPointerException` from a missing parent or a null vertex,
`IllegalArgumentException` for an unknown aggregation) are `Failure` values
of `Wrappers.Result`/`Wrappers.Outcome`, and every contract states when
they happen.

Four details of the code that the model keeps as written:

- `FinalQueriesNotOlap.shortestDistanceBetweenUsers` tests `threshold == 0`
  twice (`FinalQueriesNotOlap.java:67-69`), so its threshold-1 base case,
  which returns `{user: {user: 0}}`, is unreachable. The model keeps the
  code's branches; the lemma `NotOlapDistances.ThresholdOneSelfOnly` shows
  that the general path returns that same table.
- The aggregation queries print no trailing row count; only
  `PrintUtils.printDistances` does (`PrintUtils.java:34`).
- In `QueriesOlap` and `App` the printing flag `syso` is cleared after the
  first row, so at most one row is printed per run
  (`Emission.Shown`, `Emission.Console.Show`).
- Keys are ordered as `String.compareTo` orders them, by UTF-16 code units
  rather than by code points: a character above U+FFFF is stored as two
  surrogates starting at 0xD800, so it sorts before the characters
  U+E000 to U+FFFF (`JavaStrings.CmpIsUnitOrder`,
  `JavaStrings.SurrogatesSortFirst`).

The bounded Dijkstra search of `FinalQueriesKnownAlgorithms` is proved to
give shortest hop counts within its threshold (`Dijkstra.SearchedRow`,
`KnownQueries.ShortestDistanceFromUser`), as Floyd–Warshall is
(`FloydWarshall.RoundsShortest`).

## Model

| member | source | states |
|---|---|---|
| Climb.Starts | src/main/java/ar/edu/itba/Operations.java:37 | the zero-hop walks are exactly the one-vertex walks at a vertex of kind `bottom` |
| Climb.TopWalks | src/main/java/ar/edu/itba/Operations.java:57 | the walks kept for rewriting are exactly the frontier walks whose last vertex is of kind `top` |
| Climb.WalksAreClimbWalks | src/main/java/ar/edu/itba/Operations.java:41-54 | every walk the traversal holds after k hops starts at a bottom vertex and follows k extendsFrom edges |
| Climb.ClimbWalksAreWalks | src/main/java/ar/edu/itba/Operations.java:41-54 | conversely, every such extendsFrom walk of k hops is held by the traversal after k hops |
| Climb.WalkRankBound | src/main/java/ar/edu/itba/Operations.java:41-54 | along an extendsFrom walk the hierarchy rank grows by at least one per hop |
| Climb.WalksBounded | src/main/java/ar/edu/itba/Operations.java:41-54 | a non-empty frontier after k hops means k is at most the highest rank, so the search loop ends |
| Climb.LevelReachesTop | src/main/java/ar/edu/itba/Operations.java:41 | when the search stops after n hops, some bottom vertex has a top ancestor exactly n hops up |
| Climb.LevelIsFirst | src/main/java/ar/edu/itba/Operations.java:41 | when the search stops after n hops, no bottom vertex reaches a top vertex in fewer hops (lock-step, first level wins) |
| Climb.LevelNoneMeaning | src/main/java/ar/edu/itba/Operations.java:49-52 | when the search fails, no bottom vertex has a top ancestor |
| Climb.LevelMeaning | src/main/java/ar/edu/itba/Operations.java:41-52 | the search fails if and only if no extendsFrom walk from a bottom vertex ends at a top vertex |
| Climb.InteriorNotTop | src/main/java/ar/edu/itba/Operations.java:57-75 | on a rewritten walk only the last vertex is of kind `top` |
| Climb.RetargetAll | src/main/java/ar/edu/itba/Operations.java:63-67 | each in-edge (r, s) is replaced by (r, t) with the same label, position by position |
| Climb.RedirectMultiset | src/main/java/ar/edu/itba/Operations.java:61-67 | moving the in-edges of the start: the edge multiset loses exactly those edges and gains their twins into the end, so the edge count is unchanged |
| Climb.RedirectStepMultiset | src/main/java/ar/edu/itba/Operations.java:65-66 | one loop step swaps one copy of the edge for its twin into the end |
| Climb.RedirectClearsIn | src/main/java/ar/edu/itba/Operations.java:61-67 | after the redirect the start vertex has no in-edges left |
| Climb.PruneShrinks | src/main/java/ar/edu/itba/Operations.java:70-75 | pruning removes only vertices of the walk, changes no surviving vertex and only removes edges |
| Climb.PruneRemovesFirst | src/main/java/ar/edu/itba/Operations.java:70-75 | a start vertex without in-edges when pruning begins is removed |
| Climb.RedirectRanked | src/main/java/ar/edu/itba/Operations.java:61-67 | redirecting in-edges upwards keeps the hierarchy ranked |
| Climb.RedirectedFrom | src/main/java/ar/edu/itba/Operations.java:63-67 | every edge left by the redirect is an old edge or the twin into the end of an old in-edge of the start |
| Climb.RewritePathFacts | src/main/java/ar/edu/itba/Operations.java:57-75 | rewriting one walk keeps the graph ranked, removes only non-final walk vertices and removes the start when the walk has a hop |
| Climb.RewriteSingleton | src/main/java/ar/edu/itba/Operations.java:57-75 | rewriting a zero-hop walk leaves the vertices and the edge multiset as they were |
| Climb.MoveEdge | src/main/java/ar/edu/itba/Operations.java:64-66 | addEdge of the twin followed by edge.remove(): the new edge list is one redirect step of the old |
| Climb.RedirectIns | src/main/java/ar/edu/itba/Operations.java:61-67 | the loop over the in-edges of the start leaves exactly the redirected edge list, vertices unchanged |
| Climb.PruneWalk | src/main/java/ar/edu/itba/Operations.java:70-75 | the loop over the walk's non-final vertices leaves exactly the pruned graph |
| Climb.PruneVertex | src/main/java/ar/edu/itba/Operations.java:71-74 | a vertex is removed iff it is present and has no in-edges |
| Climb.RewriteWalk | src/main/java/ar/edu/itba/Operations.java:57-75 | one forEach step: redirect the start's in-edges to the end, then prune |
| Climb.FindTopWalks | src/main/java/ar/edu/itba/Operations.java:37-54 | the search loop fails iff the level is None; otherwise it yields exactly the top-ending walks at the first level |
| Climb.SearchHop | src/main/java/ar/edu/itba/Operations.java:42-52 | one hop advances the frontier by one extendsFrom edge and reports exhaustion exactly when it becomes empty |
| Climb.SearchStep | src/main/java/ar/edu/itba/Operations.java:42-52 | an empty frontier with no top reached means the level is None |
| Climb.SearchStop | src/main/java/ar/edu/itba/Operations.java:41 | a top reached after k hops makes the level k |
| Climb.TopWalkRewritable | src/main/java/ar/edu/itba/Operations.java:57-59 | every walk climb rewrites starts at a bottom vertex, has n+1 vertices and ends at the only top vertex on it |
| Climb.RewriteAllShrinks | src/main/java/ar/edu/itba/Operations.java:57-76 | the whole rewrite keeps the graph ranked, removes only interior walk vertices and changes no surviving vertex |
| Climb.RewriteAllEdges | src/main/java/ar/edu/itba/Operations.java:57-76 | every edge after the rewrite was there before or enters a top vertex |
| Climb.TopsSurvive | src/main/java/ar/edu/itba/Operations.java:70 | no vertex of kind `top` is ever removed |
| Climb.StartsRemoved | src/main/java/ar/edu/itba/Operations.java:61-75 | the start of every walk with at least one hop is removed |
| Climb.SingletonsKeep | src/main/java/ar/edu/itba/Operations.java:41-57 | zero-hop walks (bottom == top) leave the vertices and the edge multiset unchanged |
| Climb.RewriteWalks | src/main/java/ar/edu/itba/Operations.java:57-76 | each found walk is rewritten exactly once, in some order, and the graph is the rewrite of all of them |
| Climb.RewriteNext | src/main/java/ar/edu/itba/Operations.java:57-76 | one more walk rewritten extends the rewrite by that walk |
| Climb.Climb | src/main/java/ar/edu/itba/Operations.java:34-77 | fails with TopNotFound(bottom, top) iff no bottom vertex has a top ancestor, leaving the graph as it was; otherwise the graph is the rewrite of exactly the first-level top walks: tops survive, vertices outside walk interiors survive, starts are removed, and bottom == top changes nothing |
| Minimize.FindMatch | src/main/java/ar/edu/itba/Operations.java:111-122 | the inner search finds an unused out-edge of the other call with the same label and target value, or there is none |
| Minimize.MatchNext | src/main/java/ar/edu/itba/Operations.java:107-123 | one out-edge of the call takes a distinct unused edge of the other call with its key, or the signatures differ |
| Minimize.MatchedEdge | src/main/java/ar/edu/itba/Operations.java:118-120 | marking the matched edge used moves exactly its key from the unused keys to the matched ones |
| Minimize.UnmatchedEdge | src/main/java/ar/edu/itba/Operations.java:107-123 | an edge left without a match means the other call has fewer edges with that key |
| Minimize.MatchOutEdges | src/main/java/ar/edu/itba/Operations.java:104-126 | the edge matching plus the out-degree test succeed if and only if both calls have the same multiset of (label, target value) keys |
| Minimize.MatchComplete | src/main/java/ar/edu/itba/Operations.java:125-126 | with every edge of the call matched, the multisets agree exactly when no edge of the other call is left over |
| Minimize.Candidates | src/main/java/ar/edu/itba/Operations.java:96 | the candidates are exactly the calls with an atTime edge to a target of the call's atTime edges |
| Minimize.SigStable | src/main/java/ar/edu/itba/Operations.java:91 | removing absorbed calls leaves the signatures of the remaining calls unchanged |
| Minimize.AbsorbDuplicates | src/main/java/ar/edu/itba/Operations.java:97-132 | the absorbed calls are exactly the unvisited candidates with the call's signature, each once; they are marked visited and their durations are appended to the call |
| Minimize.ConsiderCandidate | src/main/java/ar/edu/itba/Operations.java:98-131 | one candidate is absorbed iff it is unvisited and its out-edges match |
| Minimize.AbsorbStep | src/main/java/ar/edu/itba/Operations.java:129-130 | one merge marks the other call visited and appends its durations |
| Minimize.RemoveAbsorbed | src/main/java/ar/edu/itba/Operations.java:90-92 | a call absorbed by an earlier one is removed with its edges when the loop reaches it |
| Minimize.VisitFresh | src/main/java/ar/edu/itba/Operations.java:94-132 | an unvisited call is marked visited and absorbs its unabsorbed duplicates |
| Minimize.FreshFacts | src/main/java/ar/edu/itba/Operations.java:96-131 | the calls a visited call absorbs are exactly its duplicates nobody absorbed before |
| Minimize.CurrentCall | src/main/java/ar/edu/itba/Operations.java:90 | the call the loop reaches is present and marked visited exactly when an earlier call absorbed it |
| Minimize.VisitCall | src/main/java/ar/edu/itba/Operations.java:89-132 | one outer step, with an unset visited read as false: removed if absorbed, visited otherwise |
| Minimize.VisitAll | src/main/java/ar/edu/itba/Operations.java:88-133 | the outer loop keeps the bookkeeping of absorbed calls, merge lists and removals up to the end of the calls |
| Minimize.ClearVisited | src/main/java/ar/edu/itba/Operations.java:136-137 | every remaining call gets visited = false; nothing else changes |
| Minimize.Finish | src/main/java/ar/edu/itba/Operations.java:84-138 | after both loops the graph is the merge of the absorbed calls and no two remaining calls at one time share a signature |
| Minimize.SurvivorsDiffer | src/main/java/ar/edu/itba/Operations.java:96-131 | two surviving calls at one time are never duplicates of each other |
| Minimize.Minimize | src/main/java/ar/edu/itba/Operations.java:84-138 | each absorbed call is a duplicate (same time, same keys, not itself) of the call that absorbed it and is removed with its edges; each survivor holds its durations followed by those it absorbed, with visited = false; no duplicates remain |
| Minimize.VisitedAsWritten | src/main/java/ar/edu/itba/Operations.java:90 | reading `visited` with value() fails exactly when the property was never written |
| Minimize.VisitedUnsetFails | src/main/java/ar/edu/itba/Operations.java:90 | on a graph whose calls carry no `visited` property, the first read already fails |
| Minimize.OneCallFails | src/main/java/ar/edu/itba/Operations.java:90 | a concrete one-call graph, as the loader leaves it, on which that read fails |
| Minimize.DurationAsWritten | src/main/java/ar/edu/itba/Operations.java:130 | reading `duration` with value() gives the one value when the call holds exactly one, fails with "no such property" when it holds none and with "multiple properties" when it holds several |
| Minimize.MergedDurationFails | src/main/java/ar/edu/itba/Operations.java:88-132 | after a minimize of single-duration calls, that read on a survivor succeeds exactly when the survivor absorbed nothing |
| Minimize.MergedPairFails | src/main/java/ar/edu/itba/Operations.java:130 | a concrete pair of calls, 12 s and 30 s, merged into one survivor holding both durations, on which the read fails with "multiple properties" |
| TypeAsWritten.CallsAsWritten | src/main/java/ar/edu/itba/QueriesNotOlap.java:25 | V().has("type", "call") selects exactly the vertices whose written `type` is "call" |
| TypeAsWritten.TypedWalks | src/main/java/ar/edu/itba/Operations.java:37-52 | every walk the search holds when `type` is read as written is an extendsFrom chain of the whole graph, one vertex longer than its hop count |
| TypeAsWritten.TypedWalksBounded | src/main/java/ar/edu/itba/Operations.java:41-52 | that search runs out of walks within the hierarchy's height, so its loop ends |
| TypeAsWritten.UntypedSelectsNothing | src/main/java/ar/edu/itba/Operations.java:37-52 | on a graph where no vertex holds `type`, climb's search throws its IllegalArgumentException, has("type", "call") selects nothing, and getParent finds no parent |
| TypeAsWritten.LabelTypesAgree | src/main/java/ar/edu/itba/GraphUtils.java:59-66 | when every vertex's `type` equals its label, the as-written climb level, call selection and getParent are `Climb.Level`, `CallFiling.CallsOf` and `GraphUtils.Parent` |
| Dice.PurgeEquals | src/main/java/ar/edu/itba/Operations.java:199-200 | the vertices diceEquals purges are exactly the `label` vertices whose value differs from `value` |
| Dice.PurgeNotEquals | src/main/java/ar/edu/itba/Operations.java:211-212 | the vertices diceNotEquals purges are exactly the `label` vertices whose value equals `value` |
| Dice.PurgesSplitLevel | src/main/java/ar/edu/itba/Operations.java:196-215 | each `label` vertex is purged by exactly one of the two dice |
| Dice.RemoveIns | src/main/java/ar/edu/itba/Operations.java:220-237 | the vertices removed are exactly the live vertices of the in-closure of the roots (roots plus, transitively, every vertex with an edge into a removed one), with their edges; every other vertex is untouched |
| Dice.SkipStep | src/main/java/ar/edu/itba/Operations.java:233-235 | a pending vertex removed earlier is skipped without changing anything |
| Dice.RemoveStep | src/main/java/ar/edu/itba/Operations.java:228-232 | a pending live vertex is removed and its in-neighbours become pending |
| Dice.InNeighboursInClosure | src/main/java/ar/edu/itba/Operations.java:228-232 | the in-neighbours of a vertex of the in-closure belong to it |
| Dice.PendingAfterRemoval | src/main/java/ar/edu/itba/Operations.java:228-232 | after removing a vertex, every edge into it came from a removed or a pending vertex |
| Dice.ClosedIsClosure | src/main/java/ar/edu/itba/Operations.java:220-237 | once nothing is pending, the removed vertices are exactly the live part of the in-closure |
| Dice.ChainRemoved | src/main/java/ar/edu/itba/Operations.java:220-237 | every vertex on a chain of edges into a root is removed |
| Dice.ClosureLeast | src/main/java/ar/edu/itba/Operations.java:220-237 | the in-closure is the least set holding the roots and closed under edge sources |
| Dice.DiceEquals | src/main/java/ar/edu/itba/Operations.java:196-203 | diceEquals removes exactly the in-closure of the `label` vertices with another value |
| Dice.DiceNotEquals | src/main/java/ar/edu/itba/Operations.java:208-215 | diceNotEquals removes exactly the in-closure of the `label` vertices with that value |
| Dice.DiceEqualsKeeps | src/main/java/ar/edu/itba/Operations.java:194-203 | after diceEquals every `label` vertex left has the chosen value |
| Dice.DiceNotEqualsKeeps | src/main/java/ar/edu/itba/Operations.java:205-215 | after diceNotEquals no `label` vertex left has the excluded value |
| Dice.PurgedClosed | src/main/java/ar/edu/itba/Operations.java:218-237 | a kept vertex keeps all its out-edges and their targets: no kept fact points at a removed vertex |
| Dice.ClosureBackStep | src/main/java/ar/edu/itba/Operations.java:228-232 | the source of an edge into the in-closure is in the in-closure |
| Aggregations.Agg | src/main/java/ar/edu/itba/Operations.java:239-260 | fails iff the aggregation is ARRAY (with "Unknown aggregation: ARRAY") or the list is empty for AVG, MAX or MIN; COUNT is the length, SUM the sum, MAX and MIN an element bounding all others, AVG times the length is the sum |
| Aggregations.Largest | src/main/java/ar/edu/itba/Operations.java:248-250 | the maximum of a non-empty list is an element and bounds every element |
| Aggregations.Smallest | src/main/java/ar/edu/itba/Operations.java:251-253 | the minimum of a non-empty list is an element and is bounded by every element |
| Aggregations.TotalPermutation | src/main/java/ar/edu/itba/Operations.java:254-255 | the sum depends only on the multiset of the durations |
| Aggregations.AggPermutation | src/main/java/ar/edu/itba/Operations.java:149-150 | agg of the parallel stream does not depend on the order the durations come in |
| Aggregations.AggConcat | src/main/java/ar/edu/itba/QueriesNotOlap.java:301-308 | SUM and COUNT over flattened buckets add up over concatenation |
| Operations.ListCalls | src/main/java/ar/edu/itba/Operations.java:145 | the call listing holds every call vertex once |
| Operations.Aggregate | src/main/java/ar/edu/itba/Operations.java:143-163 | succeeds iff agg succeeds on every call; then every call holds exactly agg of its former list and no other vertex or edge changes; otherwise the first failing call ends it, earlier calls aggregated and its own list removed |
| Operations.AggregateCall | src/main/java/ar/edu/itba/Operations.java:148-162 | one call's durations are removed and replaced by agg of them, or agg's failure is reported with the list removed |
| Operations.AggregateDone | src/main/java/ar/edu/itba/Operations.java:148-162 | after the loop every call is aggregated and every other vertex is as it was |
| Operations.AggregatedCall | src/main/java/ar/edu/itba/Operations.java:148-162 | after aggregate each call holds exactly one duration, equal to agg of its former list in any order |
| Operations.ReaggregateStable | src/main/java/ar/edu/itba/Operations.java:143-163 | aggregating again with the same aggregation changes nothing, except that COUNT gives 1 |
| Operations.ClimbKeepsReady | src/main/java/ar/edu/itba/Operations.java:170 | a climb to any level but "call" keeps every call with its atTime edge and out-edges, as minimize needs |
| Operations.MinimizeKeepsReady | src/main/java/ar/edu/itba/Operations.java:171 | the graph minimize leaves is ready for the next minimize and still ranked |
| Operations.AggregateKeepsReady | src/main/java/ar/edu/itba/Operations.java:175 | aggregate changes durations only, so the graph stays ready and ranked |
| Operations.ClimbOnce | src/main/java/ar/edu/itba/Operations.java:170 | climb's failure becomes the roll-up's failure with the graph untouched; success is the climb's rewrite |
| Operations.MinimizeAll | src/main/java/ar/edu/itba/Operations.java:171 | minimize over the stored calls, keeping the graph ready |
| Operations.Reduce | src/main/java/ar/edu/itba/Operations.java:172-175 | ARRAY leaves the graph as it is; any other aggregation is aggregate's outcome |
| Operations.MinimizeAndReduce | src/main/java/ar/edu/itba/Operations.java:171-175 | minimize exactly once, then the aggregation step |
| Operations.RollUp | src/main/java/ar/edu/itba/Operations.java:168-176 | fails with TopNotFound, graph unchanged, iff the climb fails; otherwise climb, then one minimize, then aggregate unless ARRAY |
| Operations.RollUpAll | src/main/java/ar/edu/itba/Operations.java:181-191 | the climbs run in list order, each on the graph the previous left; the first failing climb ends it; otherwise one minimize and then aggregate unless ARRAY |
| Operations.ExtendChain | src/main/java/ar/edu/itba/Operations.java:183-185 | one more successful climb extends the chain of stages |
| GraphUtils.ParentFirst | src/main/java/ar/edu/itba/GraphUtils.java:59-66 | a parent found is the target of an extendsFrom out-edge whose target has the kind; the model picks the first such edge in storage order, one of the choices findFirst may make |
| GraphUtils.ParentFails | src/main/java/ar/edu/itba/GraphUtils.java:64 | getParent fails (the Optional.get() exception) exactly when no extendsFrom out-edge reaches a vertex of the kind |
| GraphUtils.Parent | src/main/java/ar/edu/itba/GraphUtils.java:43-66 | getParent, and through it getOperator, getUser and getCity (the kinds "operator", "user", "city"): a parent found has the kind asked for and is the target of an extendsFrom edge from the vertex; otherwise the failure is NoSuchElementException for that vertex and kind |
| GraphUtils.UniqueParent | src/main/java/ar/edu/itba/GraphUtils.java:59-66 | with a single parent of the kind, getParent finds exactly that one |
| GraphUtils.PathVertex | src/main/java/ar/edu/itba/GraphUtils.java:77-88 | index i maps to 4*i, a negative index to size - 1 + 4*(index + 1); outside the path it fails with NoSuchElementException naming the size and the computed index |
| GraphUtils.PathIndex | src/main/java/ar/edu/itba/GraphUtils.java:79-82 | index 0 reads the first element and -1 the last; on a path of 4m + 1 elements (user, phone, call, phone, user, ...) every index lands on a user position, a multiple of four |
| GraphUtils.PathEnds | src/main/java/ar/edu/itba/GraphUtils.java:79-82 | index 0 is the first element and -1 the last of any non-empty path |
| GraphUtils.PathFromBothEnds | src/main/java/ar/edu/itba/GraphUtils.java:79-82 | on a path of m hops of four elements, index -j and index m + 1 - j pick the same user |
| GraphUtils.PathOutside | src/main/java/ar/edu/itba/GraphUtils.java:83-86 | every index past either end of the path fails |
| GraphUtils.PhonesOfUser | src/main/java/ar/edu/itba/GraphUtils.java:35-41 | a phone is among the phones of the user named as its parent, and every phone listed has a user |
| GraphUtils.NeighborsSymmetric | src/main/java/ar/edu/itba/GraphUtils.java:21-29 | sharing a call is symmetric: q is a neighbour phone of p iff p is one of q |
| GraphUtils.NeighborsOfSelf | src/main/java/ar/edu/itba/GraphUtils.java:21-29 | a phone is its own neighbour iff it took part in a call; a phone in no call has no neighbours |
| GraphUtils.Targets | src/main/java/ar/edu/itba/GraphUtils.java:23 | out(label) yields exactly the targets of the vertex's out-edges with that label |
| GraphUtils.Sources | src/main/java/ar/edu/itba/GraphUtils.java:22 | in(label) yields exactly the sources of the vertex's in-edges with that label |
| GraphUtils.TargetsOfAll | src/main/java/ar/edu/itba/GraphUtils.java:22-23 | the integratedBy targets of a list of calls, all of them |
| GraphUtils.NeighborList | src/main/java/ar/edu/itba/GraphUtils.java:21-23 | the neighbour traversal yields exactly the neighbour phones |
| GraphUtils.PhoneIdCache.constructor | src/main/java/ar/edu/itba/GraphUtils.java:19 | the cache starts empty |
| GraphUtils.PhoneIdCache.PhoneIdsOf | src/main/java/ar/edu/itba/GraphUtils.java:35-41 | computeIfAbsent: a cached user returns the cached set unchanged; otherwise the user's phones are computed and cached; on an unchanged graph the answer is the user's phones |
| QueryFilters.UserCity | src/main/java/ar/edu/itba/QueryFilters.java:16-17 | getCity(getUser(phone)): fails when either lookup fails, otherwise the city of the phone's user |
| QueryFilters.Query2b | src/main/java/ar/edu/itba/QueryFilters.java:11-13 | true iff the two phones' operators are different vertices; a missing operator is getParent's failure, the first phone's first |
| QueryFilters.Query2c | src/main/java/ar/edu/itba/QueryFilters.java:15-17 | true iff the cities of the phones' users are different vertices; a missing user or city is the lookup's failure |
| QueryFilters.FiltersSymmetric | src/main/java/ar/edu/itba/QueryFilters.java:11-17 | both filters are symmetric whenever they decide, and false for a phone paired with itself |
| QueryFilters.SameUserSameCity | src/main/java/ar/edu/itba/QueryFilters.java:15-17 | two phones of the same user never pass query2_c_filter |
| QueryFilters.Query2bOnEdges | src/main/java/ar/edu/itba/QueryFilters.java:11-13 | with one operator per phone, query2_b_filter passes exactly the phones whose operator edges lead to different vertices |
| QueryFilters.ApplyFilter | src/main/java/ar/edu/itba/FinalQueriesKnownAlgorithms.java:235 | no filter passes every pair; a filter never passes a phone with itself; a filter that throws does so with getParent's NoSuchElementException, for query2_b_filter on one of the two phones |
| PrintUtils.RowText | src/main/java/ar/edu/itba/PrintUtils.java:22-27 | a row is member1, two spaces, member2, two spaces, the distance and a newline; a negative distance starts with '-' and a non-negative one reads back as the distance |
| PrintUtils.JoinAppend | src/main/java/ar/edu/itba/PrintUtils.java:13-31 | the appended row text of two runs of the loop is the concatenation of each |
| PrintUtils.PrintRow | src/main/java/ar/edu/itba/PrintUtils.java:15-30 | the inner loop counts exactly the entries (member1, member2) with member1 <= member2, each once, and builds their rows only when printTuples is set |
| PrintUtils.PrintDistances | src/main/java/ar/edu/itba/PrintUtils.java:7-35 | the count is the number of entries with member1 <= member2 whatever printTuples is; the output is each counted row as "m1  m2  d\n" (only when printTuples is set) followed by "<count> rows." |
| PrintUtils.CountedOnce | src/main/java/ar/edu/itba/PrintUtils.java:17-19 | in a symmetric table each unordered pair of distinct members is counted once, in its increasing orientation, and a self entry is always counted |
| PrintUtils.DistinctCard | src/main/java/ar/edu/itba/PrintUtils.java:13-30 | rows without repetition number as many as the set of them |
| PhoneData.Intern | src/main/java/ar/edu/itba/FinalQueriesKnownAlgorithms.java:176-178 | putIfAbsent plus put on absence: a known phone keeps its id; a new one gets the next id, and the two maps stay mutual inverses over 0..size-1 |
| PhoneData.InitialRowEntries | src/main/java/ar/edu/itba/FinalQueriesKnownAlgorithms.java:181-197 | a phone's initial row holds exactly 0 for itself and 1 for each other phone it shares a call with |
| PhoneData.NeighborsArePhones | src/main/java/ar/edu/itba/FinalQueriesKnownAlgorithms.java:183-184 | the neighbours of a phone are phones when every integratedBy edge ends at a phone |
| PhoneData.AddPhone | src/main/java/ar/edu/itba/FinalQueriesKnownAlgorithms.java:173-198 | one phone of the stream: it and its neighbours are indexed and its row is the initial row; other rows are untouched |
| PhoneData.SelfEntry | src/main/java/ar/edu/itba/FinalQueriesKnownAlgorithms.java:181 | computeIfAbsent(...).put(id, 0) starts a row with 0 on the diagonal |
| PhoneData.AddNeighbors | src/main/java/ar/edu/itba/FinalQueriesKnownAlgorithms.java:183-197 | the inner stream indexes every neighbour and puts 1 for each one other than the phone itself |
| PhoneData.NeighborStep | src/main/java/ar/edu/itba/FinalQueriesKnownAlgorithms.java:186-196 | one neighbour: indexed, then 1 put for it unless its id is the phone's own |
| PhoneData.PutNeighbor | src/main/java/ar/edu/itba/FinalQueriesKnownAlgorithms.java:191-196 | putting one neighbour keeps the row's shape and covers that neighbour |
| PhoneData.Index | src/main/java/ar/edu/itba/FinalQueriesKnownAlgorithms.java:167-201 | the constructor: the phones get dense ids 0..vSize-1 with mutually inverse maps, and every phone's row is its initial row |
| PhoneData.IndexStep | src/main/java/ar/edu/itba/FinalQueriesKnownAlgorithms.java:173-198 | one more phone keeps the rows of the phones already listed |
| PhoneData.RowsInitial | src/main/java/ar/edu/itba/FinalQueriesKnownAlgorithms.java:181-200 | the rows built are the start of Floyd–Warshall: 0 on the diagonal, 1 in every other entry, ids below vSize |
| PhoneData.InitialGet | src/main/java/ar/edu/itba/FinalQueriesKnownAlgorithms.java:63-65 | read with getOrDefault as the loop reads it, the map the constructor builds gives 0 to itself, 1 to a phone sharing a call and Integer.MAX_VALUE otherwise |
| FloydWarshall.Rounds | src/main/java/ar/edu/itba/FinalQueriesKnownAlgorithms.java:60-73 | the k outer rounds keep the rows the map started with |
| FloydWarshall.RoundGet | src/main/java/ar/edu/itba/FinalQueriesKnownAlgorithms.java:63-70 | a round puts distIK + distKJ in a cell exactly when both legs are below Integer.MAX_VALUE and their sum is shorter, and leaves it otherwise |
| FloydWarshall.RoundsAgree | src/main/java/ar/edu/itba/FinalQueriesKnownAlgorithms.java:60-73 | the rounds of the loop compute the Floyd–Warshall recurrence |
| FloydWarshall.CostAppend | src/main/java/ar/edu/itba/FinalQueriesKnownAlgorithms.java:67-69 | hop costs add up when two walks are joined at a shared phone |
| FloydWarshall.CostNonNegative | src/main/java/ar/edu/itba/FinalQueriesKnownAlgorithms.java:181-196 | no walk of the initial map has a negative cost |
| FloydWarshall.NonNegative | src/main/java/ar/edu/itba/FinalQueriesKnownAlgorithms.java:60-73 | no round makes an entry negative |
| FloydWarshall.NeverIncreases | src/main/java/ar/edu/itba/FinalQueriesKnownAlgorithms.java:67-70 | entries never increase from one round to the next |
| FloydWarshall.Realised | src/main/java/ar/edu/itba/FinalQueriesKnownAlgorithms.java:60-73 | every entry known after k rounds is the cost of a walk between its ids whose inner phones are below k |
| FloydWarshall.JoinedWalk | src/main/java/ar/edu/itba/FinalQueriesKnownAlgorithms.java:67-69 | two walks through the pivot join into one whose inner phones are below pivot + 1 |
| FloydWarshall.Least | src/main/java/ar/edu/itba/FinalQueriesKnownAlgorithms.java:60-73 | after k rounds the entry between the ends of any walk with inner phones below k is at most its cost |
| FloydWarshall.ThroughX | src/main/java/ar/edu/itba/FinalQueriesKnownAlgorithms.java:60-73 | a walk through the pivot splits into walks to and from it with inner phones below it, costing no more |
| FloydWarshall.CostOfEnds | src/main/java/ar/edu/itba/FinalQueriesKnownAlgorithms.java:60-73 | cutting out the middle of a walk does not raise its cost |
| FloydWarshall.DiagonalStaysZero | src/main/java/ar/edu/itba/FinalQueriesKnownAlgorithms.java:60-73 | the diagonal stays 0 through every round |
| FloydWarshall.Shortest | src/main/java/ar/edu/itba/FinalQueriesKnownAlgorithms.java:60-73 | after the n rounds every entry is at most the cost of any walk between its ids |
| FloydWarshall.RowUpToStep | src/main/java/ar/edu/itba/FinalQueriesKnownAlgorithms.java:62-70 | one column of the innermost loop puts the sum through k exactly when the guard holds |
| FloydWarshall.PivotFixed | src/main/java/ar/edu/itba/FinalQueriesKnownAlgorithms.java:63-70 | with a non-negative diagonal, round k never changes row k or column k, so updating the map in place is safe |
| FloydWarshall.ReadsAgree | src/main/java/ar/edu/itba/FinalQueriesKnownAlgorithms.java:63-65 | the three cells the innermost loop reads are still those of the map the round started from |
| FloydWarshall.RoundPrefixNext | src/main/java/ar/edu/itba/FinalQueriesKnownAlgorithms.java:61-72 | finishing row i moves the boundary of the partly done round by one |
| FloydWarshall.RoundPrefixFull | src/main/java/ar/edu/itba/FinalQueriesKnownAlgorithms.java:61-72 | once every row is done, the in-place round is the whole round |
| FloydWarshall.RoundsInside | src/main/java/ar/edu/itba/FinalQueriesKnownAlgorithms.java:60-73 | the rounds only put columns below vSize |
| FloydWarshall.ReachableJoin | src/main/java/ar/edu/itba/FinalQueriesKnownAlgorithms.java:67-69 | walks i to x and x to j join into a walk i to j costing the sum |
| FloydWarshall.InitialSound | src/main/java/ar/edu/itba/FinalQueriesKnownAlgorithms.java:181-196 | each initial entry is a walk of at most one hop |
| FloydWarshall.RoundsSound | src/main/java/ar/edu/itba/FinalQueriesKnownAlgorithms.java:60-73 | every entry Floyd–Warshall leaves is the cost of a walk |
| FloydWarshall.RoundsShortest | src/main/java/ar/edu/itba/FinalQueriesKnownAlgorithms.java:60-73 | after the loop no walk costs less than the entry between its ends: each entry is the shortest hop count |
| FloydWarshall.RoundsNoNegative | src/main/java/ar/edu/itba/FinalQueriesKnownAlgorithms.java:60-73 | Floyd–Warshall leaves no negative entry |
| FloydWarshall.UnitCost | src/main/java/ar/edu/itba/FinalQueriesKnownAlgorithms.java:181-196 | with 1 in every initial entry between two phones, a walk between two different phones costs at least 1 |
| FloydWarshall.BelowInitial | src/main/java/ar/edu/itba/FinalQueriesKnownAlgorithms.java:60-73 | no round raises an entry above the initial one |
| FloydWarshall.RoundsDominate | src/main/java/ar/edu/itba/FinalQueriesKnownAlgorithms.java:60-73 | Floyd–Warshall keeps every initial entry, at no larger a value |
| KnownAlgorithms.Data.ValidClosed | src/main/java/ar/edu/itba/FinalQueriesKnownAlgorithms.java:160-165 | the id maps and the rows stay within the dense ids |
| KnownAlgorithms.Data.constructor | src/main/java/ar/edu/itba/FinalQueriesKnownAlgorithms.java:167-201 | every phone gets a dense id; its row holds 0 to itself and 1 to each phone it shares a call with; the user table starts empty |
| KnownAlgorithms.Data.AllPairs | src/main/java/ar/edu/itba/FinalQueriesKnownAlgorithms.java:60-73 | the in-place triple loop leaves exactly the map of the n rounds of Floyd–Warshall |
| KnownAlgorithms.Data.RelaxThrough | src/main/java/ar/edu/itba/FinalQueriesKnownAlgorithms.java:61-72 | one pass of the middle loop is one round through k |
| KnownAlgorithms.Data.RelaxRow | src/main/java/ar/edu/itba/FinalQueriesKnownAlgorithms.java:62-71 | one pass of the innermost loop relaxes row i through k |
| KnownAlgorithms.Data.PhoneDataIdsOf | src/main/java/ar/edu/itba/FinalQueriesKnownAlgorithms.java:203-207 | the dense ids of exactly the user's phones, through the shared cache; a phone without an id is reported |
| KnownAlgorithms.Data.Search | src/main/java/ar/edu/itba/FinalQueriesKnownAlgorithms.java:104-126 | from phone s: only the row of s changes, by putIfAbsent of each reached phone; each phone is reached at most once, in nondecreasing depth, below a non-negative threshold, at the cost of a walk from s; s is reached first at depth 0 unless the threshold is 0; and every walk from s costing less than the threshold (any walk when it is negative) ends at a reached phone whose depth is no more than the walk costs, so each depth is the shortest distance |
| KnownAlgorithms.Data.Poll | src/main/java/ar/edu/itba/FinalQueriesKnownAlgorithms.java:110-125 | one poll of the least node keeps the search invariant and makes progress |
| KnownAlgorithms.Data.Settle | src/main/java/ar/edu/itba/FinalQueriesKnownAlgorithms.java:115-125 | an unreached polled node is marked reached and recorded at its depth |
| KnownAlgorithms.Data.Peek | src/main/java/ar/edu/itba/FinalQueriesKnownAlgorithms.java:109 | pq.peek() is the least node |
| KnownAlgorithms.Data.GetDistancesMap | src/main/java/ar/edu/itba/FinalQueriesKnownAlgorithms.java:209-258 | a non-empty memo is returned unchanged; otherwise, unless a lookup throws, the table of the minimum over the filtered phone pairs of the projected rows, plus 0 self distances for every user (or only the given one); the phone map is untouched |
| PqNodes.Compare | src/main/java/ar/edu/itba/FinalQueriesKnownAlgorithms.java:143-148 | negative iff the depth is smaller, or equal with a smaller id; zero iff the nodes are equal |
| PqNodes.CompareOrder | src/main/java/ar/edu/itba/FinalQueriesKnownAlgorithms.java:143-148 | compareTo is total, antisymmetric and transitive |
| PqNodes.LeastExists | src/main/java/ar/edu/itba/FinalQueriesKnownAlgorithms.java:109-110 | a non-empty queue has a least node |
| PqNodes.LeastUnique | src/main/java/ar/edu/itba/FinalQueriesKnownAlgorithms.java:110 | the least node is unique, so polling is deterministic |
| PqNodes.LeastDepth | src/main/java/ar/edu/itba/FinalQueriesKnownAlgorithms.java:109 | the least node has the least depth, which the threshold test reads |
| Dijkstra.PutAllAbsent | src/main/java/ar/edu/itba/FinalQueriesKnownAlgorithms.java:116 | putIfAbsent keeps existing entries and adds the new ones |
| Dijkstra.PutIfAbsent | src/main/java/ar/edu/itba/FinalQueriesKnownAlgorithms.java:116 | only the row of s changes, by putIfAbsent |
| Dijkstra.Offers | src/main/java/ar/edu/itba/FinalQueriesKnownAlgorithms.java:119-125 | the offered nodes are exactly the unreached phones of the row, at depth plus their entry |
| Dijkstra.Offer | src/main/java/ar/edu/itba/FinalQueriesKnownAlgorithms.java:119-125 | the inner loop adds exactly those offers to the queue |
| Dijkstra.RowOnlyBounded | src/main/java/ar/edu/itba/FinalQueriesKnownAlgorithms.java:109-116 | with all depths below the threshold, the row of s gains only entries below it |
| Dijkstra.OrderedStep | src/main/java/ar/edu/itba/FinalQueriesKnownAlgorithms.java:109-116 | a new phone reached at no smaller depth keeps the reach order |
| Dijkstra.RecordWalks | src/main/java/ar/edu/itba/FinalQueriesKnownAlgorithms.java:116 | recording a walk cost keeps every entry the cost of a walk |
| Dijkstra.OffersQueued | src/main/java/ar/edu/itba/FinalQueriesKnownAlgorithms.java:119-125 | offered nodes are reachable at their depth and no shallower than the polled one |
| Dijkstra.SettleStep | src/main/java/ar/edu/itba/FinalQueriesKnownAlgorithms.java:110-125 | settling the least unreached node below the threshold keeps the search invariant |
| Dijkstra.SkipStep | src/main/java/ar/edu/itba/FinalQueriesKnownAlgorithms.java:112-114 | a polled node already reached is dropped with nothing else changed |
| Dijkstra.SearchStart | src/main/java/ar/edu/itba/FinalQueriesKnownAlgorithms.java:106-108 | the queue holding only (s, 0) with nothing reached satisfies the search invariant |
| Dijkstra.RelaxedSkip | src/main/java/ar/edu/itba/FinalQueriesKnownAlgorithms.java:112-114 | dropping a node whose phone was reached no deeper keeps every initial entry from a reached phone relaxed |
| Dijkstra.RelaxedSettle | src/main/java/ar/edu/itba/FinalQueriesKnownAlgorithms.java:115-125 | settling the least node and offering its row keeps every initial entry from a reached phone relaxed: its far end is reached, or queued, no deeper than the near end plus the entry |
| Dijkstra.DominatesPut | src/main/java/ar/edu/itba/FinalQueriesKnownAlgorithms.java:116 | putIfAbsent keeps every initial entry |
| Dijkstra.WalksFound | src/main/java/ar/edu/itba/FinalQueriesKnownAlgorithms.java:109-126 | once no queued node is below the threshold, every walk from s below the threshold ends at a reached phone no deeper than the walk costs |
| Dijkstra.Exhausted | src/main/java/ar/edu/itba/FinalQueriesKnownAlgorithms.java:109 | when the loop stops, on an empty queue or on a least depth at the threshold, every reached depth is at most the cost of every walk from s within the threshold |
| Dijkstra.SearchedRow | src/main/java/ar/edu/itba/FinalQueriesKnownAlgorithms.java:116 | after the search the row of s holds, for every walk from s within the threshold, an entry no larger than its cost, whether putIfAbsent kept the initial 0 or 1 or put the reached depth |
| Dijkstra.SearchedRows | src/main/java/ar/edu/itba/FinalQueriesKnownAlgorithms.java:104-127 | a search leaves its own row shortest and every row made shortest before unchanged |
| DistanceTables.RelaxKeepsMin | src/main/java/ar/edu/itba/FinalQueriesKnownAlgorithms.java:239-240 | compute(name2, min) on one reported distance keeps the table the least distance over one sample more |
| DistanceTables.AddRowKeepsMin | src/main/java/ar/edu/itba/FinalQueriesKnownAlgorithms.java:226 | putIfAbsent of a user's row keeps every existing row and adds the user to the rows |
| DistanceTables.SetSelfKeepsMin | src/main/java/ar/edu/itba/FinalQueriesKnownAlgorithms.java:251 | forcing a 0 self distance is one more sample of distance 0 when no distance is negative |
| DistanceTables.MinTableUnique | src/main/java/ar/edu/itba/FinalQueriesKnownAlgorithms.java:239-240 | the table depends only on the rows and the samples, not on the order in which the distances were reported |
| DistanceTables.SelfOnlyTable | src/main/java/ar/edu/itba/FinalQueriesKnownAlgorithms.java:94-96 | with only self samples of one user the table is exactly {user: {user: 0}} |
| DistanceTables.SampleSetGrows | src/main/java/ar/edu/itba/FinalQueriesNotOlap.java:102-111 | the samples reported so far grow by the next one |
| DistanceTables.RelaxAll | src/main/java/ar/edu/itba/FinalQueriesNotOlap.java:102-111 | reporting a list of distances in turn gives the least distance over the old samples and the new ones |
| DistanceTables.SetSelves | src/main/java/ar/edu/itba/FinalQueriesKnownAlgorithms.java:246-252 | forcing 0 self distances for a set of users, in any order, is the table over those zero samples, and each of those users then has 0 to itself |
| DistanceTables.ZerosStep | src/main/java/ar/edu/itba/FinalQueriesKnownAlgorithms.java:249-252 | one more user forced to 0 adds exactly its zero sample |
| DistanceTables.ZerosHold | src/main/java/ar/edu/itba/FinalQueriesKnownAlgorithms.java:246-255 | once the zeros are among non-negative samples every such user has 0 to itself |
| DistanceTables.ZerosOne | src/main/java/ar/edu/itba/FinalQueriesKnownAlgorithms.java:254 | one user's zero is the one sample (user, user, 0) |
| DistanceTables.SingleRow | src/main/java/ar/edu/itba/FinalQueriesKnownAlgorithms.java:221-255 | non-negative samples all from one user, including its zero, make a table of that one row holding 0 to itself |
| DistanceTables.MinTableNonNegative | src/main/java/ar/edu/itba/FinalQueriesKnownAlgorithms.java:239-240 | non-negative samples give a table without negative distances |
| Projection.UserNameOf | src/main/java/ar/edu/itba/FinalQueriesKnownAlgorithms.java:217-219 | the user name of a dense id is found exactly when its phone has a user, and otherwise getParent's failure is reported |
| Projection.EntrySample | src/main/java/ar/edu/itba/FinalQueriesKnownAlgorithms.java:229-241 | an entry is reported exactly when the filter accepts the two phones and the second has a user, as (name1, name2, distance); it is skipped exactly when the filter rejects it |
| Projection.EntrySamplesGrow | src/main/java/ar/edu/itba/FinalQueriesKnownAlgorithms.java:227-242 | one more entry visited adds its sample, if any |
| Projection.ProjectEntries | src/main/java/ar/edu/itba/FinalQueriesKnownAlgorithms.java:227-242 | the inner loop succeeds exactly when no lookup fails, and then reports every sample of the row |
| Projection.RowsGrow | src/main/java/ar/edu/itba/FinalQueriesKnownAlgorithms.java:214-243 | one more row visited adds its user's name and its samples |
| Projection.NamesGrow | src/main/java/ar/edu/itba/FinalQueriesKnownAlgorithms.java:219-226 | one more row visited adds its user's name, when selected |
| Projection.SamplesGrow | src/main/java/ar/edu/itba/FinalQueriesKnownAlgorithms.java:227-242 | one more row visited adds its samples |
| Projection.ProjectRow | src/main/java/ar/edu/itba/FinalQueriesKnownAlgorithms.java:216-242 | one row of the outer loop: skipped when another user is selected, otherwise its name gets a row and its samples are reported; fails exactly when a lookup fails |
| Projection.ProjectRows | src/main/java/ar/edu/itba/FinalQueriesKnownAlgorithms.java:214-243 | the outer loop, in any order, succeeds exactly when no lookup fails and then gives the least distance over every sample of every selected row |
| Projection.SampleOrigin | src/main/java/ar/edu/itba/FinalQueriesKnownAlgorithms.java:214-243 | every reported distance is an entry of a selected row between two phones whose users it names and whose pair passes the filter |
| Projection.EntryReported | src/main/java/ar/edu/itba/FinalQueriesKnownAlgorithms.java:214-243 | conversely every such entry is reported |
| Projection.SamplesNonNegative | src/main/java/ar/edu/itba/FinalQueriesKnownAlgorithms.java:214-243 | a map without negative entries reports no negative distance |
| KnownQueries.TableFromEntries | src/main/java/ar/edu/itba/FinalQueriesKnownAlgorithms.java:209-258 | the table getDistancesMap builds holds only self zeros and entries of the phone map |
| KnownQueries.TableOfUser | src/main/java/ar/edu/itba/FinalQueriesKnownAlgorithms.java:221-255 | with a user given, the table has exactly that user's row, holding 0 to itself |
| KnownQueries.NamesOfUser | src/main/java/ar/edu/itba/FinalQueriesKnownAlgorithms.java:221-223 | with a user given, only that user's rows are projected |
| KnownQueries.SamplesOfUser | src/main/java/ar/edu/itba/FinalQueriesKnownAlgorithms.java:221-223 | with a user given, every reported distance starts at that user |
| KnownQueries.TableBounded | src/main/java/ar/edu/itba/FinalQueriesKnownAlgorithms.java:85-86 | a phone map bounded by a positive threshold gives a table bounded by it |
| KnownQueries.TableShortest | src/main/java/ar/edu/itba/FinalQueriesKnownAlgorithms.java:55-76 | for every walk between phones of two users whose pair passes the filter, the table holds a distance between the users no larger than the walk |
| KnownQueries.ShortestDistanceBetweenUsers | src/main/java/ar/edu/itba/FinalQueriesKnownAlgorithms.java:55-76 | a new Data object, Floyd–Warshall on it, then the projection with the filter and every user's zero; fails exactly when a lookup fails |
| KnownQueries.TableShortestFrom | src/main/java/ar/edu/itba/FinalQueriesKnownAlgorithms.java:221-255 | a walk from a phone of the user whose row is shortest, within the threshold, to a phone of u2 bounds the table's distance from the user to u2 |
| KnownQueries.SearchedPhone | src/main/java/ar/edu/itba/FinalQueriesKnownAlgorithms.java:203-207 | a phone whose user has the given name is among the ids phoneDataIdsOf returned |
| KnownQueries.UserTableShortest | src/main/java/ar/edu/itba/FinalQueriesKnownAlgorithms.java:102-130 | with the row of every phone of the user searched, the table's distance from the user to any u2 is at most the cost of any walk within the threshold from a phone of the user to a phone of u2 |
| KnownQueries.SearchPhone | src/main/java/ar/edu/itba/FinalQueriesKnownAlgorithms.java:104-126 | one iteration of the loop over the user's phones: that phone's row becomes shortest and stays bounded by the threshold, no other row changes |
| KnownQueries.SearchPhones | src/main/java/ar/edu/itba/FinalQueriesKnownAlgorithms.java:104-127 | the loop over the user's phones, in any order, leaves every one of their rows shortest within the threshold |
| KnownQueries.ShortestDistanceFromUser | src/main/java/ar/edu/itba/FinalQueriesKnownAlgorithms.java:88-130 | threshold 0 gives the empty map and 1 gives {user: {user: 0}}; otherwise only the user's row, holding 0 to itself, every distance below a non-negative threshold and each one an entry of the searched map; and the distance from the user to u2 is at most the cost of every walk within the threshold from a phone of the user to a phone of u2, so it is the shortest |
| NotOlapDistances.Filtered | src/main/java/ar/edu/itba/FinalQueriesNotOlap.java:86-90 | the filter throws exactly when the filter test of some emitted path throws; otherwise it keeps exactly the emitted paths whose test holds |
| NotOlapDistances.Dedup | src/main/java/ar/edu/itba/FinalQueriesNotOlap.java:91 | dedup keeps only emitted paths, at most one per end phone, and every end phone of the paths keeps one |
| NotOlapDistances.DedupFirst | src/main/java/ar/edu/itba/FinalQueriesNotOlap.java:91 | the path dedup keeps for an end phone is the first of the paths to reach it |
| NotOlapDistances.PathSample | src/main/java/ar/edu/itba/FinalQueriesNotOlap.java:103-105 | a path reports the names of its end phones' users and (size - 1) / 2, never negative |
| NotOlapDistances.PathSamples | src/main/java/ar/edu/itba/FinalQueriesNotOlap.java:102-105 | the samples of the paths in order, one per path, failing exactly when some path's lookup fails |
| NotOlapDistances.AddStart | src/main/java/ar/edu/itba/FinalQueriesNotOlap.java:102-111 | one start phone's paths report their samples into the table, failing exactly when a lookup fails |
| NotOlapDistances.AddStarts | src/main/java/ar/edu/itba/FinalQueriesNotOlap.java:98-111 | the loop over the start phones, in any order, gives the least distance over every sample, failing exactly when a lookup fails |
| NotOlapDistances.ShortestDistanceBetweenUsers | src/main/java/ar/edu/itba/FinalQueriesNotOlap.java:62-126 | with a user and threshold 0 the empty map; otherwise the least distance over the samples of every start phone plus the zero self distances of every user (or only the given one) |
| NotOlapDistances.AllSamplesGrow | src/main/java/ar/edu/itba/FinalQueriesNotOlap.java:102 | one more start phone adds its samples |
| NotOlapDistances.SampleOrigin | src/main/java/ar/edu/itba/FinalQueriesNotOlap.java:102-111 | every reported distance comes from one emitted path of one start phone |
| NotOlapDistances.SampleReported | src/main/java/ar/edu/itba/FinalQueriesNotOlap.java:86-111 | conversely, for every emitted path the filter keeps, the first kept path to the same end phone has its sample among the reported ones |
| NotOlapDistances.AllSamplesNonNegative | src/main/java/ar/edu/itba/FinalQueriesNotOlap.java:105 | no reported distance is negative |
| NotOlapDistances.SamplesBelowThreshold | src/main/java/ar/edu/itba/FinalQueriesNotOlap.java:82 | every distance within the stop condition is below the threshold (or 0 when it stops at once); a negative threshold bounds by Integer.MAX_VALUE |
| NotOlapDistances.ThresholdOneSelfOnly | src/main/java/ar/edu/itba/FinalQueriesNotOlap.java:65-74 | with threshold 1 the general path already gives {user: {user: 0}}, so the unreachable second `threshold == 0` branch loses nothing |
| NotOlapDistances.SelfSamplesOnly | src/main/java/ar/edu/itba/FinalQueriesNotOlap.java:82-111 | when each start phone emits only itself, the only sample is the user's zero |
| Buckets.PutGrouped | src/main/java/ar/edu/itba/QueriesNotOlap.java:45-46 | putIfAbsent then add files one more call under a key and keeps the map grouped |
| Buckets.EmptyGrouped | src/main/java/ar/edu/itba/QueriesNotOlap.java:27 | the new HashMap groups no facts |
| Buckets.BucketMembers | src/main/java/ar/edu/itba/QueriesNotOlap.java:45-46 | the bucket of a key holds exactly the calls filed under it |
| Buckets.PairsMeaning | src/main/java/ar/edu/itba/QueriesNotOlap.java:39-47 | a key of the pair loops is two different values of the set followed by the suffix |
| Buckets.TriplesMeaning | src/main/java/ar/edu/itba/QueriesNotOlap.java:242-252 | a key of the triple loops is three pairwise-different values of the set |
| Buckets.SmallSetsNoTuples | src/main/java/ar/edu/itba/QueriesNotOlap.java:36-38 | fewer than two values give no pair and fewer than three no triple, so the size guards drop nothing |
| Buckets.ExtensionsStep | src/main/java/ar/edu/itba/QueriesNotOlap.java:40-47 | one more value of the innermost loop files the call under its key unless it is excluded |
| Buckets.PutRow | src/main/java/ar/edu/itba/QueriesNotOlap.java:40-47 | the innermost loop files the call under prefix + q + suffix for each q not excluded |
| Buckets.PairsStep | src/main/java/ar/edu/itba/QueriesNotOlap.java:39-48 | one pass of the outer loop adds the pairs starting with its value |
| Buckets.PutPairs | src/main/java/ar/edu/itba/QueriesNotOlap.java:39-48 | the two nested loops file the call under every ordered pair of different values, followed by the suffix |
| Buckets.TriplesInnerStep | src/main/java/ar/edu/itba/QueriesNotOlap.java:243-252 | one pass of the middle loop adds the triples of its second value |
| Buckets.PutTriplesFrom | src/main/java/ar/edu/itba/QueriesNotOlap.java:243-252 | the two inner loops file the call under every triple with that first value and pairwise-different values |
| Buckets.TriplesOuterStep | src/main/java/ar/edu/itba/QueriesNotOlap.java:242-253 | one pass of the outer loop adds the triples of its first value |
| Buckets.PutTriples | src/main/java/ar/edu/itba/QueriesNotOlap.java:242-253 | the three nested loops file the call under every ordered triple of pairwise-different values |
| CallReading.ValuesAlongMeaning | src/main/java/ar/edu/itba/QueriesNotOlap.java:30-35 | a value is collected exactly when some edge with a chosen label leads to a vertex with that value |
| CallReading.CollectValues | src/main/java/ar/edu/itba/QueriesNotOlap.java:30-35 | the edge-iterator loop collects exactly those values |
| CallReading.UsersAlongMeaning | src/main/java/ar/edu/itba/QueriesNotOlap.java:126-136 | a user is collected exactly when a party edge leads to a phone with an edge to that user |
| CallReading.CollectUsers | src/main/java/ar/edu/itba/QueriesNotOlap.java:265-275 | the nested loops over the phones and their out-edges collect exactly those users |
| CallReading.LastUserNone | src/main/java/ar/edu/itba/QueriesNotOlap.java:186-193 | the user stays null exactly when no out-edge leads to a user |
| CallReading.LastUserFound | src/main/java/ar/edu/itba/QueriesNotOlap.java:186-193 | the user found is that of a user edge with no user edge after it |
| CallReading.FindLastUser | src/main/java/ar/edu/itba/QueriesNotOlap.java:186-193 | the inner loop leaves the user of the last user edge, or null |
| CallReading.PhoneUsersAlongMeaning | src/main/java/ar/edu/itba/QueriesNotOlap.java:182-195 | an entry is collected exactly when it is the last user of a phone some party edge leads to, null included |
| CallReading.CollectPhoneUsers | src/main/java/ar/edu/itba/QueriesNotOlap.java:182-195 | the outer loop collects exactly those entries |
| CallReading.NamedCard | src/main/java/ar/edu/itba/QueriesNotOlap.java:196 | without null the names are as many as the entries, so the size guard counts users |
| CallReading.NextTarget | src/main/java/ar/edu/itba/QueriesNotOlap.java:137 | edges(OUT, label).next() fails with NoSuchElement exactly when the vertex has no out-edge with that label, and otherwise follows one |
| CallReading.NextOut | src/main/java/ar/edu/itba/QueriesNotOlap.java:138-139 | edges(OUT).next() fails exactly when the vertex has no out-edge, and otherwise follows one |
| CallReading.MonthOfChain | src/main/java/ar/edu/itba/QueriesNotOlap.java:137-139 | on a graph as ingestion builds it, the month read is the value two extendsFrom steps above the call's timestamp |
| ReadingKeys.GuardedPairs | src/main/java/ar/edu/itba/QueriesNotOlap.java:36-48 | the size guard in front of the pair loops drops no pair |
| ReadingKeys.PartyValuesKeys | src/main/java/ar/edu/itba/QueriesNotOlap.java:29-48 | query1_1_1 files a call under (a, b) exactly when a and b are two different values of its phones, and never fails |
| ReadingKeys.CallerParticipantKeys | src/main/java/ar/edu/itba/QueriesNotOlap.java:80-102 | query1_2 files a call under (a, b) exactly when a is a calledBy value and b a different integratedBy value |
| ReadingKeys.PartyUsersKeys | src/main/java/ar/edu/itba/QueriesNotOlap.java:264-289 | getUserPairs files a call under (a, b) exactly when a and b are two different users of its phones |
| ReadingKeys.PartyUsersMonthKeys | src/main/java/ar/edu/itba/QueriesNotOlap.java:125-153 | query1_5 fails exactly when the month chain is broken, and otherwise files a call under (a, b, month) for two different users |
| ReadingKeys.LastUsers2Keys | src/main/java/ar/edu/itba/QueriesNotOlap.java:181-209 | query1_6 throws exactly when there are two or more last users and one is null; otherwise it files (a, b) for two different last users |
| ReadingKeys.LastUsers3Keys | src/main/java/ar/edu/itba/QueriesNotOlap.java:224-254 | query2_1 throws exactly when there are three or more last users and one is null; otherwise it files every triple of pairwise-different last users |
| ReadingKeys.PathEndsThirdKeys | src/main/java/ar/edu/itba/QueriesOlap.java:99-117 | a path with two different end values files its call under (start, end, d) for each other value d of the call's phones, and under nothing otherwise |
| CallFiling.CallsOf | src/main/java/ar/edu/itba/QueriesNotOlap.java:25 | V().has("type", "call") yields only calls |
| CallFiling.MonthCalls | src/main/java/ar/edu/itba/QueriesNotOlap.java:173-177 | the vertices three in-steps below the April month are taken as calls |
| CallFiling.PathsOf | src/main/java/ar/edu/itba/QueriesOlap.java:150-158 | the traversal yields only paths |
| CallFiling.FactsMeaning | src/main/java/ar/edu/itba/QueriesNotOlap.java:29-49 | a call is filed under a key exactly when some item of that call gives the key |
| CallFiling.FactsStep | src/main/java/ar/edu/itba/QueriesNotOlap.java:29 | walking one more item adds the facts of its keys |
| CallFiling.FactsEmpty | src/main/java/ar/edu/itba/QueriesNotOlap.java:27 | walking nothing files nothing |
| CallFiling.FileCall | src/main/java/ar/edu/itba/QueriesNotOlap.java:29-49 | the body of a call query's forEach: read the call, then file it under each of its keys, or fail as the reading fails |
| CallFiling.FilePath | src/main/java/ar/edu/itba/QueriesNotOlap.java:61-69 | the body of a path query's forEach: file the call under the key of the path |
| CallFiling.FileOne | src/main/java/ar/edu/itba/QueriesNotOlap.java:29-49 | the body of the forEach for an item of either kind |
| CallFiling.TableEntry | src/main/java/ar/edu/itba/QueriesNotOlap.java:29-49 | the key table holds the keys of exactly the items whose reading succeeds |
| CallFiling.FileAll | src/main/java/ar/edu/itba/QueriesNotOlap.java:29-49 | the forEach over the traversal, in any order, leaves every key's bucket the set of calls giving it, or the failure of an item whose reading throws |
| CallFiling.FileNext | src/main/java/ar/edu/itba/QueriesNotOlap.java:29-49 | one pass of the forEach adds its item's facts to those walked |
| CallFiling.FiledAllFails | src/main/java/ar/edu/itba/QueriesNotOlap.java:29-49 | an item whose reading throws ends the forEach with that failure |
| CallFiling.FiledAllDone | src/main/java/ar/edu/itba/QueriesNotOlap.java:29-49 | once every item is walked, the map groups all their facts |
| Emission.BagRemove | src/main/java/ar/edu/itba/QueriesNotOlap.java:302-305 | the durations of a bucket do not depend on which call is taken first |
| Emission.CollectDurations | src/main/java/ar/edu/itba/QueriesNotOlap.java:302-305 | the flatMap lists exactly the durations of the bucket's calls |
| Emission.AggOfBucket | src/main/java/ar/edu/itba/QueriesNotOlap.java:302-305 | agg over any listing of a bucket's durations is the bucket's aggregate |
| Emission.Swap | src/main/java/ar/edu/itba/QueriesNotOlap.java:298 | the key with its first two components exchanged |
| Emission.PairOrientation | src/main/java/ar/edu/itba/QueriesNotOlap.java:298-300 | a pair rule never emits (a, a, ...) and emits exactly one of (a, b, ...) and (b, a, ...) |
| Emission.EmittedTriple | src/main/java/ar/edu/itba/QueriesNotOlap.java:316-319 | an emitted triple is strictly increasing, so its values differ |
| Emission.TripleCanonical | src/main/java/ar/edu/itba/QueriesNotOlap.java:316-319 | of the six orders of three different values exactly one is emitted |
| Emission.Shown | src/main/java/ar/edu/itba/QueriesOlap.java:183-186 | printing is off, all rows, or only the first when printing clears the flag |
| Emission.Console.constructor | src/main/java/ar/edu/itba/QueriesOlap.java:24 | the console starts with the flag given and nothing printed |
| Emission.Console.Show | src/main/java/ar/edu/itba/QueriesOlap.java:183-186 | a row is printed exactly when the flag is on, and the flag is cleared when printing clears it |
| Emission.ShowAll | src/main/java/ar/edu/itba/QueriesOlap.java:183-186 | offering the rows in turn appends to the console the ones its flag lets through: all of them, only the first when printing clears the flag, none when it is off |
| Emission.PartialStep | src/main/java/ar/edu/itba/QueriesNotOlap.java:296-309 | one more entry visited adds its row when it is emitted |
| Emission.CoverStep | src/main/java/ar/edu/itba/QueriesNotOlap.java:296-309 | one more entry visited keeps every emitted key visited so far covered by a row |
| Emission.PartialDone | src/main/java/ar/edu/itba/QueriesNotOlap.java:296-309 | once every entry is visited, the rows are exactly the emitted keys with their aggregates |
| Emission.ShownStep | src/main/java/ar/edu/itba/QueriesOlap.java:183-186 | one more row offered is printed exactly when the flag is still on |
| Emission.EmitRows | src/main/java/ar/edu/itba/QueriesNotOlap.java:294-310 | the entries in any order: one row per emitted key with its bucket's aggregate; when an aggregation throws, the error is that of an emitted bucket and the rows produced before it are emitted keys, each once, with their aggregates |
| Emission.Emit | src/main/java/ar/edu/itba/QueriesOlap.java:173-187 | the rows produced, and on a failure the rows produced before it (emitted keys, each once, with their aggregates), are the ones offered to the console |
| CallQueries.RunQuery | src/main/java/ar/edu/itba/QueriesNotOlap.java:23-52 | fill the map over the traversal, then emit its entries to the console; a failed read prints nothing, and a failed aggregation prints only valid rows produced before it |
| CallQueries.SwapTwice | src/main/java/ar/edu/itba/QueriesNotOlap.java:298 | swapping twice gives the key back |
| CallQueries.SwapBucket | src/main/java/ar/edu/itba/QueriesNotOlap.java:39-48 | with swap-closed facts a key and its swap have the same bucket |
| CallQueries.ReportedOnce | src/main/java/ar/edu/itba/QueriesNotOlap.java:294-310 | over swap-closed facts a pair key of equal values is never reported, and of (a, b) and (b, a) exactly one is, with their common aggregate |
| CallQueries.PairsWithSwap | src/main/java/ar/edu/itba/QueriesNotOlap.java:39-48 | swapping a pair key keeps it a pair of different values with the same suffix |
| CallQueries.CallKeysSwap | src/main/java/ar/edu/itba/QueriesNotOlap.java:39-48 | a symmetric reading gives the swap of every key it gives |
| CallQueries.CallFactsSwapClosed | src/main/java/ar/edu/itba/QueriesNotOlap.java:39-48 | the calls a symmetric reading walks are filed swap-closed |
| CallQueries.PathFactsSwapClosed | src/main/java/ar/edu/itba/QueriesNotOlap.java:56-69 | with the same labels in and out, the path reading is filed swap-closed: the path walked backwards is a path too |
| CallQueries.BackPath | src/main/java/ar/edu/itba/QueriesNotOlap.java:56-57 | the path walked backwards is a path of the traversal |
| CallQueries.PathEndsSwap | src/main/java/ar/edu/itba/QueriesNotOlap.java:62-64 | a path and its reverse give swapped keys |
| CallQueries.BucketOfKey | src/main/java/ar/edu/itba/QueriesNotOlap.java:29-49 | a successful filing holds, for each key, exactly the calls whose reading gives it |
| CallQueries.RowsMeaning | src/main/java/ar/edu/itba/QueriesNotOlap.java:23-52 | a successful query reports a key exactly when the rule emits it and some call is filed under it, with agg over exactly those calls' durations |
| CallQueries.Orders | src/main/java/ar/edu/itba/QueriesNotOlap.java:242-253 | the six orders of a triple include it and are triples |
| CallQueries.OrdersOfOrder | src/main/java/ar/edu/itba/QueriesNotOlap.java:242-253 | reordering a triple keeps its set of orders |
| CallQueries.OrderBucket | src/main/java/ar/edu/itba/QueriesNotOlap.java:242-253 | with order-closed facts all orders of a triple share its bucket |
| CallQueries.TripleReportedOnce | src/main/java/ar/edu/itba/QueriesNotOlap.java:312-329 | a triple with a repeated value is never reported, and of the six orders of three different values exactly one is |
| CallQueries.TripleOnce | src/main/java/ar/edu/itba/QueriesNotOlap.java:316-319 | two reported orders of a triple are the same order |
| CallQueries.OnlyIncreasingOrder | src/main/java/ar/edu/itba/QueriesNotOlap.java:316-319 | of the orders of a triple, only one is strictly increasing |
| CallQueries.LastUsersOrderClosed | src/main/java/ar/edu/itba/QueriesNotOlap.java:242-253 | the last-users triple reading files each call under every order of its triples |
| CallQueries.LastUsersReordered | src/main/java/ar/edu/itba/QueriesNotOlap.java:242-253 | a call filed under a triple is filed under each of its orders |
| QueriesNotOlap.Query1_1_1 | src/main/java/ar/edu/itba/QueriesNotOlap.java:23-52 | pairs of the phone values of each call, AVG, every emitted row printed; when the aggregation throws, the rows printed before it are emitted keys with their aggregates |
| QueriesNotOlap.Query1_1_2 | src/main/java/ar/edu/itba/QueriesNotOlap.java:54-72 | (first, last) of each phone path through a call, AVG; when the aggregation throws, the rows printed before it are emitted keys with their aggregates |
| QueriesNotOlap.Query1_2 | src/main/java/ar/edu/itba/QueriesNotOlap.java:74-106 | caller and participant pairs of each call, AVG; when the aggregation throws, the rows printed before it are emitted keys with their aggregates |
| QueriesNotOlap.Query1_3 | src/main/java/ar/edu/itba/QueriesNotOlap.java:108-112 | the user pairs of getUserPairs, MAX; when the aggregation throws, the rows printed before it are emitted keys with their aggregates |
| QueriesNotOlap.Query1_4 | src/main/java/ar/edu/itba/QueriesNotOlap.java:114-118 | the user pairs of getUserPairs, COUNT |
| QueriesNotOlap.Query1_5 | src/main/java/ar/edu/itba/QueriesNotOlap.java:120-169 | (user, user, month) of each call, emitted when the second user is greater, COUNT |
| QueriesNotOlap.Query1_6 | src/main/java/ar/edu/itba/QueriesNotOlap.java:171-212 | pairs of the last users of the phones of the April calls, COUNT |
| QueriesNotOlap.Query2_1 | src/main/java/ar/edu/itba/QueriesNotOlap.java:214-257 | triples of the last users of the phones of the April calls, AVG; when the aggregation throws, the rows printed before it are emitted keys with their aggregates |
| QueriesNotOlap.PartyValuesCalls | src/main/java/ar/edu/itba/QueriesNotOlap.java:29-49 | query1_1_1 files under (a, b) exactly the calls with both phone values, a and b different |
| QueriesNotOlap.Query1_1_1Rows | src/main/java/ar/edu/itba/QueriesNotOlap.java:23-52 | when query1_1_1 succeeds it reports (a, b) exactly when a < b and some call has both phone values, with the average duration of all such calls; no pair twice in either order |
| QueriesNotOlap.LastUsersCalls | src/main/java/ar/edu/itba/QueriesNotOlap.java:224-254 | query2_1 files under a triple of different users exactly the April calls with those three last users |
| QueriesNotOlap.EmitsIncreasing | src/main/java/ar/edu/itba/QueriesNotOlap.java:316-319 | aggTriplets emits (a, b, d) exactly when a < b < d |
| QueriesNotOlap.Query2_1Rows | src/main/java/ar/edu/itba/QueriesNotOlap.java:214-257 | when query2_1 succeeds it reports (a, b, d) exactly when a < b < d and some April call has those last users and none missing, with the average of all such calls |
| QueriesNotOlap.Query2_1Once | src/main/java/ar/edu/itba/QueriesNotOlap.java:312-329 | of the six orders of three users query2_1 reports at most one |
| QueriesOlap.ArrayRolledUp | src/main/java/ar/edu/itba/Operations.java:168-176 | what rollUp promises for ARRAY is a roll-up step: the climb, the minimize and the reduce, or the top-not-found failure |
| QueriesOlap.RollUpArray | src/main/java/ar/edu/itba/QueriesOlap.java:140 | operations.rollUp(bottom, top, ARRAY) keeps the graph ready for the next roll-up |
| QueriesOlap.DiceKeepsReady | src/main/java/ar/edu/itba/QueriesOlap.java:83 | a dice keeps the graph ready for roll-ups |
| QueriesOlap.Ins | src/main/java/ar/edu/itba/QueriesOlap.java:150-157 | calledBy when the caller must differ, otherwise both party labels |
| QueriesOlap.Outs | src/main/java/ar/edu/itba/QueriesOlap.java:150-157 | integratedBy when the caller must differ, otherwise both party labels |
| QueriesOlap.GetPaths | src/main/java/ar/edu/itba/QueriesOlap.java:150-158 | the paths (bottom vertex, call, party) of the traversal |
| QueriesOlap.Query | src/main/java/ar/edu/itba/QueriesOlap.java:137-148 | timestamps rolled up to allTimes, phones to top unless it is phone, then forEachPair; a failed roll-up ends the query; only the first row is printed; when the aggregation throws, the rows printed before it are emitted keys with their aggregates |
| QueriesOlap.Query1_1 | src/main/java/ar/edu/itba/QueriesOlap.java:26-28 | query over phones, both party labels, AVG; when the aggregation throws, the rows printed before it are emitted keys with their aggregates |
| QueriesOlap.Query1_2 | src/main/java/ar/edu/itba/QueriesOlap.java:30-32 | query over phones, caller to participant, AVG; when the aggregation throws, the rows printed before it are emitted keys with their aggregates |
| QueriesOlap.Query1_3 | src/main/java/ar/edu/itba/QueriesOlap.java:34-36 | query over users, MAX |
| QueriesOlap.Query1_4 | src/main/java/ar/edu/itba/QueriesOlap.java:38-40 | query over users, COUNT |
| QueriesOlap.Query1_6 | src/main/java/ar/edu/itba/QueriesOlap.java:81-86 | dice on month 4-2017, then query over users, COUNT |
| QueriesOlap.Query1_5 | src/main/java/ar/edu/itba/QueriesOlap.java:42-79 | roll-ups to months and users, then (first user, last user, month) of each path, emitted when the second sorts before the first, COUNT |
| QueriesOlap.Query2_1 | src/main/java/ar/edu/itba/QueriesOlap.java:88-135 | dice on month 4-2017, roll-up to users, then (first, last, third party) of each path, increasing triples, AVG; when the aggregation throws, the rows printed before it are emitted keys with their aggregates |
| QueriesOlap.LinkOfPath | src/main/java/ar/edu/itba/QueriesOlap.java:150-158 | each path of the traversal comes from two linked edges |
| QueriesOlap.PathOfLink | src/main/java/ar/edu/itba/QueriesOlap.java:150-158 | each pair of linked edges gives a path of the traversal |
| QueriesOlap.LinkOfCall | src/main/java/ar/edu/itba/QueriesOlap.java:150-158 | a call linking two values comes from two linked edges with those end values |
| QueriesOlap.PathEndsGives | src/main/java/ar/edu/itba/QueriesOlap.java:164-167 | a path files its call under the values of its two ends |
| QueriesOlap.PathEndsCalls | src/main/java/ar/edu/itba/QueriesOlap.java:160-171 | forEachPair files under (x, y) exactly the calls linking an x end to a y end |
| QueriesOlap.QueryRows | src/main/java/ar/edu/itba/QueriesOlap.java:160-188 | a row (x, y) is emitted exactly when x < y and some call links an x end to a y end, with the aggregate of those calls; (y, x) is never also a row |
| QueriesOlap.PathEndsMonthGives | src/main/java/ar/edu/itba/QueriesOlap.java:54-58 | a path files its call under its end values and its atTime target's value, or fails without one |
| QueriesOlap.PathEndsMonthCalls | src/main/java/ar/edu/itba/QueriesOlap.java:53-62 | the month reading files under (x, y, m) exactly the calls linking x and y in month m |
| QueriesOlap.Query1_5Rows | src/main/java/ar/edu/itba/QueriesOlap.java:42-79 | a row (x, y, m) is emitted exactly when y sorts before x and some call links them in month m, with the count of those calls' durations |
| QueriesOlap.PathEndsThirdCalls | src/main/java/ar/edu/itba/QueriesOlap.java:99-117 | the third-party reading files under (x, y, d) exactly the calls linking x and y with d as a third party |
| QueriesOlap.Query2_1Rows | src/main/java/ar/edu/itba/QueriesOlap.java:88-135 | a row (x, y, d) is emitted exactly when x < y < d and some call links x and y with third party d, with the average of those calls |
| App.Query1_1_1 | src/main/java/ar/edu/itba/App.java:217-260 | pairs of the phone values of each call, AVG; only the first row is printed; when the aggregation throws, the rows printed before it are emitted keys with their aggregates |
| App.Query1_1_2 | src/main/java/ar/edu/itba/App.java:262-294 | (first, last) of each phone path through a call, AVG; only the first row is printed; when the aggregation throws, the rows printed before it are emitted keys with their aggregates |
| App.Query2_1 | src/main/java/ar/edu/itba/App.java:296-354 | triples of the last users of the phones of the April calls, AVG; only the first row is printed; when the aggregation throws, the rows printed before it are emitted keys with their aggregates |
| App.Kept | src/main/java/ar/edu/itba/App.java:129-140 | at most the vertex's properties are printed |
| App.VertexToString | src/main/java/ar/edu/itba/App.java:128-146 | the StringBuilder loop gives the text of the vertex |
| App.ListingStep | src/main/java/ar/edu/itba/App.java:135-140 | one more property read adds its text and ", " exactly when its key is kept |
| App.KeptMeaning | src/main/java/ar/edu/itba/App.java:137 | a property is printed exactly when it is the vertex's and its key is listed, or no key is |
| App.KeptAll | src/main/java/ar/edu/itba/App.java:129 | with no key listed every property is printed |
| App.VertexTextShape | src/main/java/ar/edu/itba/App.java:131-145 | the text opens with "(v[", the decimal id that reads back as the id, "] " and the label, and closes with ")" |
| App.EdgeText | src/main/java/ar/edu/itba/App.java:120-126 | the out-vertex's text, "- label -> ", then the in-vertex's text |
| JavaStrings.Cmp | src/main/java/ar/edu/itba/QueriesNotOlap.java:298 | String.compareTo is 0 exactly on equal strings |
| JavaStrings.Less | src/main/java/ar/edu/itba/PrintUtils.java:17 | the strict order used to pick one orientation never relates a string to itself |
| JavaStrings.CmpIsUnitOrder | src/main/java/ar/edu/itba/QueriesNotOlap.java:298 | compareTo is the lexicographic comparison of the UTF-16 code units, the difference of the first differing units or else of the lengths in units |
| JavaStrings.CharUnits | src/main/java/ar/edu/itba/QueriesNotOlap.java:298 | a character above U+FFFF is a high surrogate then a low surrogate, one below it is no surrogate; two characters compare as 0 exactly when equal, and the comparison is antisymmetric |
| JavaStrings.CharCmpUnits | src/main/java/ar/edu/itba/QueriesNotOlap.java:298 | two different characters compare as their UTF-16 unit sequences do |
| JavaStrings.SurrogatesSortFirst | src/main/java/ar/edu/itba/QueriesNotOlap.java:298 | the order is by code units, not code points: U+1F600 sorts before U+FF21, with compareTo 0xFF21 - 0xD83D |
| JavaStrings.CmpAntisymmetric | src/main/java/ar/edu/itba/QueriesNotOlap.java:298 | compareTo(a, b) is the negation of compareTo(b, a) |
| JavaStrings.LessTransitive | src/main/java/ar/edu/itba/QueriesNotOlap.java:316-317 | the order compareTo induces is transitive |
| JavaStrings.LessTrichotomy | src/main/java/ar/edu/itba/PrintUtils.java:17 | of two different strings exactly one is the smaller, and no string is smaller than itself |
| JavaStrings.Digit | src/main/java/ar/edu/itba/App.java:131 | a decimal digit character with that value |
| JavaStrings.NatToString | src/main/java/ar/edu/itba/App.java:131 | the decimal text of a non-negative id is non-empty and all digits |
| JavaStrings.IntToString | src/main/java/ar/edu/itba/PrintUtils.java:26 | the decimal text of an int is non-empty and starts with '-' exactly when it is negative |
| JavaStrings.ParseNatToString | src/main/java/ar/edu/itba/App.java:131 | the decimal text reads back as the number |
| Graph.OutEdges | src/main/java/ar/edu/itba/QueriesNotOlap.java:30 | the out-edges of a vertex are exactly the stored edges leaving it |
| Graph.InEdges | src/main/java/ar/edu/itba/Operations.java:220-237 | the in-edges of a vertex are exactly the stored edges entering it |
| Graph.Detach | src/main/java/ar/edu/itba/Operations.java:231 | removing a vertex drops exactly the edges incident to it |
| Graph.RemoveFirst | src/main/java/ar/edu/itba/Operations.java:66 | edge.remove() drops one occurrence of the edge |
| Graph.InEdgesCount | src/main/java/ar/edu/itba/Operations.java:220-237 | every occurrence of an edge into a vertex is among its in-edges |
| Graph.InEdgesSubset | src/main/java/ar/edu/itba/Operations.java:220-237 | the in-edges are a sub-multiset of the edges |
| Graph.DetachAll | src/main/java/ar/edu/itba/Operations.java:220-237 | removing a list of vertices drops exactly the edges incident to one of them |
| Graph.OutEdgesAppend | src/main/java/ar/edu/itba/DataReader.java:157 | adding edges appends to the out-edges in storage order |
| Graph.OutEdgesDetach | src/main/java/ar/edu/itba/Operations.java:231 | removing a vertex a vertex has no edge to leaves its out-edges unchanged |
| Graph.DetachWellformed | src/main/java/ar/edu/itba/Operations.java:231 | removing a vertex keeps every edge between live vertices |
| Graph.PropertyGraph.constructor | src/main/java/ar/edu/itba/DataReader.java:34-37 | an empty graph |
| Graph.PropertyGraph.AddVertex | src/main/java/ar/edu/itba/DataReader.java:155-156 | a fresh vertex with its label, value and durations; the edges are unchanged |
| Graph.PropertyGraph.AddEdge | src/main/java/ar/edu/itba/DataReader.java:157 | one edge appended; the vertices are unchanged |
| Graph.PropertyGraph.RemoveEdge | src/main/java/ar/edu/itba/Operations.java:66 | one occurrence of the edge removed |
| Graph.PropertyGraph.RemoveVertex | src/main/java/ar/edu/itba/Operations.java:231 | the vertex and every edge incident to it removed |
| Graph.PropertyGraph.SetProperties | src/main/java/ar/edu/itba/Operations.java:129-130 | the durations and visited flag of one vertex replaced; nothing else changes |
| DataReader.Joined | src/main/java/ar/edu/itba/DataReader.java:95-97 | the month-year, date and timestamp texts: the first field, the separator ('-', '-', ' '), then the second field |
| DataReader.JoinedInjective | src/main/java/ar/edu/itba/DataReader.java:95-97 | with no separator inside the first field, the joined text determines both fields: month and year, day and month-year, time and date |
| DataReader.ParentRanksHigher | src/main/java/ar/edu/itba/DataReader.java:64-69 | each extendsFrom step the reader adds climbs to a higher level |
| DataReader.RankOf | src/main/java/ar/edu/itba/DataReader.java:64-69 | every vertex ranked by the height of its level |
| DataReader.ConformsReady | src/main/java/ar/edu/itba/DataReader.java:39-48 | a graph built by the reader is ready for roll-ups: calls have no in-edges, none is visited, the hierarchy is ranked |
| DataReader.ConformsAddVertex | src/main/java/ar/edu/itba/DataReader.java:155-156 | a new vertex that is not a visited call keeps the graph conforming |
| DataReader.ConformsAddEdge | src/main/java/ar/edu/itba/DataReader.java:157 | an edge that fits the schema keeps the graph conforming |
| DataReader.Lookup | src/main/java/ar/edu/itba/DataReader.java:129 | HashMap.get: the vertex of a known id, null otherwise |
| DataReader.Reader.constructor | src/main/java/ar/edu/itba/DataReader.java:34-37 | every map starts empty over a graph that fits the schema |
| DataReader.Reader.NewAll | src/main/java/ar/edu/itba/DataReader.java:141-149 | the all vertex of a dimension is created once, with value "all" + dimension, and stored |
| DataReader.Reader.NewAlls | src/main/java/ar/edu/itba/DataReader.java:40-42 | the three all vertices exist afterwards and no edge is added |
| DataReader.Reader.AddVertexAndEdge | src/main/java/ar/edu/itba/DataReader.java:151-160 | a known value changes nothing; otherwise one new vertex with that value and one extendsFrom edge to the parent, stored in the level |
| DataReader.Reader.AddPhoneVertexAndEdge | src/main/java/ar/edu/itba/DataReader.java:162-173 | a known phone changes nothing; otherwise one new phone with extendsFrom edges to its operator and its user |
| DataReader.Reader.ReadLocation | src/main/java/ar/edu/itba/DataReader.java:64-66 | country, city and user each known afterwards; a new user gets an edge to its city |
| DataReader.Reader.ReadPhone | src/main/java/ar/edu/itba/DataReader.java:67-71 | operator and phone known afterwards, the phone id mapped to the phone; a new phone gets its two edges |
| DataReader.Reader.ReadUser | src/main/java/ar/edu/itba/DataReader.java:55-71 | one users line: its phone and its id known afterwards, the id mapped to that phone |
| DataReader.Reader.ReadDay | src/main/java/ar/edu/itba/DataReader.java:99-101 | year, month and day known afterwards; the timestamps untouched |
| DataReader.Reader.ReadTimestamp | src/main/java/ar/edu/itba/DataReader.java:102-104 | the timestamp known afterwards, under its day when new, and the date-time id mapped to it |
| DataReader.Reader.ReadDateTime | src/main/java/ar/edu/itba/DataReader.java:88-104 | one date-times line: its id known afterwards, with the composed texts |
| DataReader.Reader.NewCall | src/main/java/ar/edu/itba/DataReader.java:175-188 | the first line of a call creates it with its duration, calledBy and atTime; each line adds integratedBy; a null vertex throws after what was already added |
| DataReader.Reader.ReadCall | src/main/java/ar/edu/itba/DataReader.java:120-129 | one calls line fails exactly when the member id, or for a new call the caller or date-time id, is unknown |
| DataReader.Reader.ParseUsers | src/main/java/ar/edu/itba/DataReader.java:50-81 | every users line's phone and id known afterwards |
| DataReader.Reader.ParseDateTimes | src/main/java/ar/edu/itba/DataReader.java:83-114 | every date-times line's id known afterwards |
| DataReader.Reader.ParseCalls | src/main/java/ar/edu/itba/DataReader.java:116-139 | every call known afterwards, or some line misses an id |
| DataReader.Reader.BuildGraph | src/main/java/ar/edu/itba/DataReader.java:39-48 | the all vertices, the users, the date-times and the calls in order; the graph stays ready for roll-ups |

## Left out

- Storage and process plumbing are not modelled: the Cassandra connection, clean-up and schema creation in `App`, the `main` switch, timing, logging, and the progress lines and transaction commits of `DataReader`.
- File reading and field parsing (`Files.readAllLines`, `split(",")`, `Long.parseLong`, `Integer.parseInt`) are left out. `DataReader` receives each line as a record of already-parsed fields (`UserLine`, `TimeLine`, `CallLine`), so a malformed line is outside the model.
- The Gremlin traversal engine is abstracted. `V().has(...)`, `in()`/`out()` steps and `path()` become sets of vertices or of (start, call, end) paths (`CallFiling.CallsOf`, `CallFiling.MonthCalls`, `CallFiling.PathsOf`, `QueriesOlap.GetPaths`). A vertex that a traversal meets twice is filed twice under the same keys, which changes no bucket.
- NotOlapDistances.ShortestDistanceBetweenUsers: the `repeat/until/emit/filter/dedup` traversal of `FinalQueriesNotOlap` is a parameter (`emitted`, the paths it yields from each start phone). The model proves what `toDistancesMap` makes of any emission, and bounds each distance by the stop condition. It does not prove that the traversal finds shortest paths.
- Parallel streams and `HashMap`/`HashSet` iteration order are not fixed here. Every loop over them is proved for any order. The row that a cleared `syso` flag lets through is therefore stated only as "the first row produced, at most one".
- Durations are exact reals, not IEEE doubles: rounding, NaN and the `double` result type are left out, and AVG is exactly sum / count. `newCall` stores an int duration, which becomes the real of the same value.
- Java `int` and `long` widths are not modelled. Ids are unbounded integers, and `Integer.MAX_VALUE` appears only as the constant the source compares against.
- FloydWarshall.RoundGet: `distIK + distKJ` is exact here, while in Java it could wrap past 2^31. Both legs are hop counts below the number of phones, far from that bound.
- PqNodes.Compare: the difference of depths or ids is exact, while Java's `int` subtraction could wrap. Depths stay below the threshold and ids below the number of phones.
- KnownAlgorithms.Data.PhoneDataIdsOf: a phone without a dense id gives `Unindexed`. In Java the `null` would instead throw later, when it is unboxed.
- KnownQueries.ShortestDistanceFromUser: the user is a name, so the null user that the Javadoc at `FinalQueriesKnownAlgorithms.java:83-84` documents as covering every pair of users is not modelled. With null, the code still searches only from `phoneDataIdsOf(null)` (`FinalQueriesKnownAlgorithms.java:101-104`), a lookup of `has("value", null)` whose library behaviour is outside the model, and with threshold 1 it returns a row keyed by null; it does not search from every phone.
- The `query2_a` … `query2_d` wrappers of `FinalQueriesKnownAlgorithms` and `FinalQueriesNotOlap` are not modelled. Each only passes a filter or user to a modelled `shortestDistanceBetweenUsers` and hands the result to `PrintUtils.PrintDistances`.
- Durations merged by minimize: the model appends all of an absorbed call's durations to the survivor, as the Javadoc at `Operations.java:79-82` describes. The read at `Operations.java:130` throws instead when the absorbed call already holds several durations; see the Findings row for that line. Each member below is stated with the appending merge and is weaker than the code on that point.
- Minimize.VisitCall: merges with the appending merge; `visited` is reset to false at `Operations.java:136-137`, so a second minimize can offer a call that absorbed others as a candidate. See "Durations merged by minimize".
- Minimize.ConsiderCandidate: the appending merge itself. See "Durations merged by minimize".
- Minimize.AbsorbStep: one appending merge. See "Durations merged by minimize".
- Minimize.AbsorbDuplicates: a run of appending merges. See "Durations merged by minimize".
- Minimize.VisitFresh: uses the appending merge. See "Durations merged by minimize".
- Minimize.VisitAll: uses the appending merge. See "Durations merged by minimize".
- Minimize.Finish: its merged state uses the appending merge. See "Durations merged by minimize".
- Minimize.Minimize: survivors hold every absorbed duration. See "Durations merged by minimize".
- Operations.MinimizeAll: inherits the appending merge from Minimize. See "Durations merged by minimize".
- Operations.MinimizeAndReduce: inherits the appending merge from Minimize. See "Durations merged by minimize".
- Operations.RollUp: inherits the appending merge; on a graph already rolled up with ARRAY it does not throw. See "Durations merged by minimize".
- Operations.RollUpAll: inherits the appending merge from RollUp. See "Durations merged by minimize".
- QueriesOlap.ArrayRolledUp: the roll-up step it defines uses the appending merge. See "Durations merged by minimize".
- QueriesOlap.RollUpArray: a second ARRAY roll-up succeeds here. See "Durations merged by minimize".
- QueriesOlap.Query: with top other than phone, the second ARRAY roll-up (`QueriesOlap.java:140-142`) succeeds here. See "Durations merged by minimize".
- QueriesOlap.Query1_3: inherits Query's second roll-up. See "Durations merged by minimize".
- QueriesOlap.Query1_4: inherits Query's second roll-up. See "Durations merged by minimize".
- QueriesOlap.Query1_6: inherits Query's second roll-up. See "Durations merged by minimize".
- QueriesOlap.Query1_5: its second ARRAY roll-up (`QueriesOlap.java:45-46`) succeeds here. See "Durations merged by minimize".
- Climb.Climb: the climb requires a ghost rank under which every `extendsFrom` edge climbs strictly. On a hierarchy with a cycle, the source's search loop need not terminate, and the model does not cover that case.
- Operations.Aggregate: the source builds a lazy duration stream (`Operations.java:149-150`) before deleting the properties it reads. The model assumes the stream still yields the durations held before the removal, and reads the list first; how JanusGraph's property iterator behaves after the removal is not modelled.
- GraphUtils.ParentFirst: findFirst on the unordered parallel edge stream (`GraphUtils.java:60-64`) may return any qualifying edge. The model picks the first in storage order; results are choice-independent only where a vertex has one parent of the kind (`GraphUtils.UniqueParent`), which holds for the phones the reader builds: each gets one extendsFrom edge to its operator and one to its user (`DataReader.java:161-172`).
- Emission.ShowAll: a printed line is kept as its `Row`, the key and the aggregate, not as the text `tuple.toString() + ": " + result` the source prints (`App.java:256`, `QueriesNotOlap.java:166`, `QueriesNotOlap.java:307`). The javatuples `toString()` format and Java's rendering of a `double` are outside the model, and the durations are exact reals here.
- The climb's `path()` stream and the dice's purge stream are materialised before the graph is changed. The model does not follow lazy evaluation interleaved with mutation.
- The rest of the model reads a vertex's `type` property as its label (`Vertex.kind`). The reader never writes `type` (see the Findings row for `DataReader.java:151-158`), so on the graph the reader builds every `has("type", …)` selection in the source finds nothing; the model describes the program as it works once `type` equals the label, which `TypeAsWritten.LabelTypesAgree` relates to the as-written reading.
- Edges are compared by value, so `edge.remove()` removes one occurrence of an equal edge, and parallel equal edges cannot be told apart.
- DataReader.Reader.ReadUser: states only that the line's phone and id are known afterwards, with the id mapped to that phone. The levels and edges it adds are stated by `ReadLocation` and `ReadPhone`.
- DataReader.Reader.ReadDateTime: states only that the line's id is known afterwards. The levels, edges and id mapping it adds are stated by `ReadDay` and `ReadTimestamp`.
- DataReader.Reader.ParseUsers: states that every line's phone and id are known and that the reader stays valid, not the full level maps.
- DataReader.Reader.ParseDateTimes: states that every line's id is known and that the reader stays valid, not the full level maps.
- App.VertexToString: the vertex is a `VertexView` (id, label, properties in storage order) given as a parameter. JanusGraph's id allocation is not modelled.

## Findings

| source | as written | input that shows it | evidently intended | confidence | as-written member | corrected member |
|---|---|---|---|---|---|---|
| src/main/java/ar/edu/itba/Operations.java:90 | `minimize` reads `call.property("visited").value()` for every call, but the reader never writes `visited` (`DataReader.java:175-188`), and `value()` on an absent property throws | a graph with one call vertex made by `newCall`, then `rollUp` or `minimize` | a call without `visited` is treated as not yet visited | not executed; medium (depends on the storage backend's handling of absent properties; reached only once `type` is written, see the row for `DataReader.java:151-158`) | Minimize.VisitedAsWritten, Minimize.VisitedUnsetFails, Minimize.OneCallFails | Minimize.VisitCall |
| src/main/java/ar/edu/itba/Operations.java:130 | `minimize` copies a duplicate's duration with `otherCall.value("duration")`; `duration` is a LIST key (`App.java:153`), and `value()` throws when the element holds several values | two calls p1→p2 at one time and one call p3→p2 at that time, p1 and p3 phones of one user: `query1_3` rolls up to `allTimes` (merging the two p1→p2 calls into one holding two durations), then rolls up to `user`; when the p3 call is visited first, the merged call is its candidate and line 130 throws | the survivor receives every duration of the absorbed call, as the Javadoc at `Operations.java:79-82` says | not executed; medium (depends on which of the two calls the stream visits first) | Minimize.DurationAsWritten, Minimize.MergedDurationFails, Minimize.MergedPairFails | Minimize.ConsiderCandidate |
| src/main/java/ar/edu/itba/DataReader.java:151-158 | the reader creates every vertex with a label and sets `value` (and `duration` on calls, `DataReader.java:175-180`), but never sets the `type` property, which `App.java:151` only declares; every selection in the source is by `has("type", …)` or `value("type")` (for example `Operations.java:37`, `Operations.java:86`, `GraphUtils.java:63`) | any graph the reader builds, then `rollUp("timestamp", "month", …)`: no vertex has `type` "timestamp", so climb throws its IllegalArgumentException | each vertex's `type` is its label | not executed; high | TypeAsWritten.UntypedSelectsNothing | TypeAsWritten.LabelTypesAgree, Climb.Climb, CallFiling.CallsOf |
