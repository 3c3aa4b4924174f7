# Step-by-step algorithm animations, modelled in Dafny

The algorithm visualizer animates four algorithms one step at a time. Each
algorithm file keeps its own module state: the data being animated, a running
flag, an optional line sink (`onLineChange`, which tells the code panel which
pseudocode line is active) and a pending timer. It exports three operations:

- `initialize` builds the data and registers the sink;
- `animate` runs the algorithm as an `async` function that suspends with
  `await sleep(delay)` after every visible step;
- `cleanup` clears the flag, cancels the timer and sends the idle line `-1`.

This project models the four algorithm engines and proves what they do to
their data, whether a run completes or `cleanup` interrupts it:

- `bubbleSort.ts`: an optimised bubble sort with an early-exit flag over 15
  random bars.
- `quickSort.ts`: Lomuto quicksort with the pivot at `end`, over 15 random bars.
- `breadthFirstSearch.ts`: a queue walk of a fixed seven-node binary tree.
- `depthFirstSearch.ts`: a recursive pre-order walk of the same tree.

Modules:

- `Steps` (steps.dfy): the machinery all four files repeat word for word: the
  flags, `sleep`, `cleanup` and the line sink. A `Runner` object holds it.
- `Bars` (bars.dfy): the bar record `{value, index, state}`,
  `generateRandomArray`, and the facts both sorts share about rearranging
  records.
- `BubbleSort`, `QuickSort`: the sorting files. The array is a Dafny `array`
  sorted in place.
- `Trees` (trees.dfy): `createFixedTree` and `resetStates`. The two tree files
  share them word for word. The tree's links never change, so they are the
  `Children` function on node ids, and the node records live in an array
  indexed by id.
- `BreadthFirstSearch`, `DepthFirstSearch`: the tree files.

How time and interruption are modelled:

- A suspension either resumes or is cancelled by `cleanup`. A stop oracle
  given to `animate` says at which suspension `cleanup` interrupts the run, or
  that it never does.
- A cancelled suspension never resumes, because `cleanup` clears the timer
  without resolving the promise. The outcome is then `Stopped`, and the model
  proves what state the data is left in.
- `sleep` with the flag already clear throws. The outcome is then `Failed`.

What the code does, which the model follows:

- **Quicksort's `initialize` clears the running flag; the other three set it.**
  Only `animate` sets it for quicksort.
- **Quicksort's `animate` throws before the first `initialize`.** The dataset
  is still undefined, and `animate` reads its length before anything else. The
  other three return at their sink test before reading their data.
- **`sleep` throws when the flag is already clear.** The awaiting run rejects
  and does not merely stop.
- **Bubble sort on an empty array throws.** With `n == 0`, line 180 sets the
  state of `arr[-1]`, which is `undefined`. `BubbleSort.BubbleSortAnimation.EndRound`
  returns `Failed` there.
- **Bubble sort's swap can be torn.** The swap is two assignments with a
  suspension between them (lines 157-161). A stop there leaves the record at
  `i + 1` doubled and the record from `i` lost. `BubbleSort.Interrupted`
  describes exactly this state. A stop anywhere else leaves a rearrangement of
  the records.
- **Quicksort can leave a `comparing` tag behind.** The reset at line 141 tags
  whatever record is at `j` after the swap. A record that was swapped to `i`
  while `i < j` keeps its `comparing` tag (see `QuickSort.ProbeStep`).
- **BFS re-tags the root.** The root is tagged `current`, then `processing`,
  and then `current` again when it is taken off the queue (`BreadthFirstSearch.RootWrites`).
- **The `isRunning` tests inside a run never fail when they are reached.** A
  stopped run never resumes, and a suspension that returns leaves the flag set.
  This holds for bubble sort's tests at lines 138, 175 and 197, quicksort's at
  lines 115, 127 and 144, the DFS `break` at line 117 and the BFS loop test at
  line 122. The model keeps every test as written. At bubble sort's lines 175
  and 197 and quicksort's line 144 it proves the failing branch unreachable.

## Model

| member | source | states |
|---|---|---|
| Steps.Runner.constructor | src/algorithms/bubbleSort.ts:15-17 | a freshly loaded module has the flag clear, no sink, no timer and an empty line trace |
| Steps.Runner.Attach | src/algorithms/bubbleSort.ts:209-210 | `initialize` registers the sink (or none) and sets the running flag; the timer and the trace are untouched |
| Steps.Runner.Start | src/algorithms/bubbleSort.ts:216 | `animate` sets the flag and begins a new run with its stop oracle |
| Steps.Runner.Emit | src/algorithms/quickSort.ts:117 | a line id reaches the trace exactly when a sink is registered |
| Steps.Runner.Cleanup | src/algorithms/bubbleSort.ts:221-230 | afterwards the flag is clear and no timer is pending, and the idle line is sent only to a registered sink |
| Steps.Runner.Sleep | src/algorithms/bubbleSort.ts:27-30 | with the flag clear the run throws (Failed) and nothing changes; otherwise a timer is set and either fires, so the run resumes with the flag still set, or cleanup cancels it, so the run is Stopped with the flag clear and the idle line sent |
| Steps.Runner.Announce | src/algorithms/bubbleSort.ts:116-117 | a line is sent and then the run suspends, with the three outcomes of `sleep` |
| Bars.RandomValue | src/algorithms/bubbleSort.ts:21 | a draw in [0, 1) gives a value in 1..100, the one with v - 1 <= 100u < v |
| Bars.GenerateRandomArray | src/algorithms/bubbleSort.ts:19-25 | one record per draw, record k with index k, the initial tag and a value in 1..100 |
| Bars.RetagKeepsItems | src/algorithms/bubbleSort.ts:180 | changing a record's tag changes no (value, index) item |
| Bars.ExchangeKeepsItems | src/algorithms/bubbleSort.ts:149-161 | exchanging two records, with new tags, keeps the multiset of items |
| Bars.Swap | src/algorithms/quickSort.ts:136 | the destructuring swap: the two positions trade records and every other position is unchanged |
| Bars.SwapKeepsItems | src/algorithms/quickSort.ts:136 | a destructuring swap keeps the multiset of items |
| Bars.SegmentItems | src/algorithms/quickSort.ts:153-155 | two arrays with the same items that agree outside [lo, hi) hold the same items inside it |
| Bars.RearrangedThen | src/algorithms/quickSort.ts:153-155 | a rearrangement inside a sub-range after one inside [lo, hi) is one inside [lo, hi) |
| Bars.RearrangedBounds | src/algorithms/quickSort.ts:153-155 | a bound on every value of [lo, hi) survives any rearrangement inside [lo, hi) |
| Bars.AscendingSorted | src/algorithms/bubbleSort.ts:184-192 | neighbouring pairs in order make a whole range sorted |
| BubbleSort.Tag2 | src/algorithms/bubbleSort.ts:141-142 | both records of the pair get the tag and keep their items; nothing else changes |
| BubbleSort.Exchanged | src/algorithms/bubbleSort.ts:155-161 | the pair trades places; nothing else changes |
| BubbleSort.ComparePair | src/algorithms/bubbleSort.ts:139-172 | after a completed comparison step the pair is in order and both are `default`; nothing else changes |
| BubbleSort.CompareStages | src/algorithms/bubbleSort.ts:139-172 | the swapping path and the non-swapping path both end in the ordered pair |
| BubbleSort.ComparePairItems | src/algorithms/bubbleSort.ts:146-161 | a comparison step keeps the multiset of items |
| BubbleSort.SwapStages | src/algorithms/bubbleSort.ts:149-162 | a stop after the tagging or after the exchange leaves a rearrangement; a stop between the two assignments leaves the right record doubled and the left one lost |
| BubbleSort.InterruptedThen | src/algorithms/bubbleSort.ts:138-173 | a stop after a rearrangement is still an interrupted state of the original array |
| BubbleSort.PassStart | src/algorithms/bubbleSort.ts:138 | the inner loop's invariant holds before its first step |
| BubbleSort.PassStep | src/algorithms/bubbleSort.ts:138-173 | one comparison step carries a largest value of [0, i] to i + 1 and, with no exchange so far, extends the sorted prefix |
| BubbleSort.PassEnd | src/algorithms/bubbleSort.ts:138 | when the loop test fails, [0, n) is rearranged with a largest value at n - 1, and is sorted when nothing was exchanged |
| BubbleSort.SettledStart | src/algorithms/bubbleSort.ts:119 | the outer loop's invariant holds with n = length and an empty settled suffix |
| BubbleSort.PassKeepsSuffix | src/algorithms/bubbleSort.ts:138-182 | a pass over [0, n) keeps the settled suffix, and every record of [0, n) stays at most each suffix value |
| BubbleSort.SettleLast | src/algorithms/bubbleSort.ts:177-182 | the largest value of [0, n), tagged `sorted`, extends the settled suffix by one |
| BubbleSort.FinalSorted | src/algorithms/bubbleSort.ts:184-192 | a pass with no exchange plus the settled suffix leaves the whole array sorted, with the same items, all tagged `sorted` |
| BubbleSort.BubbleSortAnimation.constructor | src/algorithms/bubbleSort.ts:11-17 | the module state on load: no data, flags clear |
| BubbleSort.BubbleSortAnimation.Initialize | src/algorithms/bubbleSort.ts:205-213 | fresh data from `generateRandomArray(15)`, the flag set, the sink registered |
| BubbleSort.BubbleSortAnimation.Animate | src/algorithms/bubbleSort.ts:215-219 | no sink: nothing changes. A run that is never stopped finishes on a non-empty array. A finished run leaves the records sorted by value, with the same items, all `sorted`, and the trace ends 21, -1. A stopped run leaves an interrupted state. Only an empty array fails |
| BubbleSort.BubbleSortAnimation.Cleanup | src/algorithms/bubbleSort.ts:221-230 | the flag is clear, no timer is pending, the idle line goes to the sink; the data is untouched |
| BubbleSort.BubbleSortAnimation.Retag | src/algorithms/bubbleSort.ts:180 | one record's tag changes, nothing else |
| BubbleSort.BubbleSortAnimation.SwapPair | src/algorithms/bubbleSort.ts:147-162 | completed, the pair tagged `swapping` is exchanged; stopped, the state is an interrupted one, torn only at i |
| BubbleSort.BubbleSortAnimation.CompareStep | src/algorithms/bubbleSort.ts:139-172 | completed, the array is `ComparePair` of the old one and `swapped` says whether the pair was out of order; stopped, an interrupted state |
| BubbleSort.BubbleSortAnimation.Pass | src/algorithms/bubbleSort.ts:128-173 | lines 5, 6 and 8 then the inner loop; completed, the pass's postcondition `PassDone` holds |
| BubbleSort.BubbleSortAnimation.Sweep | src/algorithms/bubbleSort.ts:138-173 | the inner `for` loop: completed, `PassDone`; stopped, an interrupted state torn at most at n - 2 |
| BubbleSort.BubbleSortAnimation.MarkSorted | src/algorithms/bubbleSort.ts:186-190 | every record of [0, n) becomes `sorted`; no item moves and nothing beyond n changes |
| BubbleSort.BubbleSortAnimation.EndRound | src/algorithms/bubbleSort.ts:177-196 | n == 0 never completes, and fails when the sleep resumes; otherwise `arr[n - 1]` becomes `sorted`, and with no exchange all of [0, n - 1) too, ending the loop |
| BubbleSort.BubbleSortAnimation.Round | src/algorithms/bubbleSort.ts:127-196 | one `do` round: without an exchange the whole array ends sorted and tagged; with one, the settled suffix grows by one |
| BubbleSort.BubbleSortAnimation.Rounds | src/algorithms/bubbleSort.ts:127-197 | the `do ... while` loop: completed, sorted with the same items and all `sorted`; failed only on an empty array |
| BubbleSort.BubbleSortAnimation.BubbleSortAlgorithm | src/algorithms/bubbleSort.ts:113-202 | no sink: returns at once. Completed: sorted, same items, all `sorted`, trace ends 21, -1 |
| QuickSort.ProbeStep | src/algorithms/quickSort.ts:128-141 | a record below the pivot is swapped to i + 1 and i grows; `arr[j]` ends `default`; a record moved to i + 1 < j keeps `comparing`; only i + 1 and j change |
| QuickSort.ProbeItems | src/algorithms/quickSort.ts:128-141 | a probe rearranges only [i + 1, j] |
| QuickSort.PartStart | src/algorithms/quickSort.ts:124-127 | the partition invariant holds with i = start - 1 and j = start |
| QuickSort.PartStep | src/algorithms/quickSort.ts:127-142 | one probe keeps [start, i] below the pivot and (i, j] not below it, and leaves the pivot at `end` |
| QuickSort.PlacePivot | src/algorithms/quickSort.ts:147-149 | the pivot moves to p tagged `sorted`, the record from p moves to `end`, nothing else changes |
| QuickSort.Placed | src/algorithms/quickSort.ts:146-149 | after the loop, the placed pivot has smaller values on its left and no smaller ones on its right, and [start, end] is a rearrangement |
| QuickSort.SidesSorted | src/algorithms/quickSort.ts:153-155 | sorting each side of a placed pivot inside its own range sorts [start, end] |
| QuickSort.QuickSortAnimation.constructor | src/algorithms/quickSort.ts:11-17 | the module state on load: no dataset yet (so `animate` throws), flags clear |
| QuickSort.QuickSortAnimation.Initialize | src/algorithms/quickSort.ts:161-169 | a fresh dataset from `generateRandomArray(15)`, the flag CLEAR, the sink registered |
| QuickSort.QuickSortAnimation.Animate | src/algorithms/quickSort.ts:171-175 | before any `initialize` it fails and changes no record; afterwards it never fails. The records always keep their items. A run never stopped finishes, and a finished run leaves them sorted by value. Fewer than two records: nothing happens. A stop at the first suspension leaves only `arr[end]` re-tagged `pivot` |
| QuickSort.QuickSortAnimation.Cleanup | src/algorithms/quickSort.ts:177-186 | the flag is clear, no timer is pending, the idle line goes to the sink |
| QuickSort.QuickSortAnimation.TagPivot | src/algorithms/quickSort.ts:117-121 | `arr[end]` is returned as the pivot and tagged `pivot`; nothing else changes; the run stops here exactly when cleanup interrupts this suspension |
| QuickSort.QuickSortAnimation.Probe | src/algorithms/quickSort.ts:128-141 | completed, the new i and array are `ProbeStep`; stopped, [i + 1, j] is rearranged |
| QuickSort.QuickSortAnimation.PartitionLoop | src/algorithms/quickSort.ts:123-142 | completed, [start, i] is below the pivot and (i, end) is not; stopped, [start, end) is rearranged |
| QuickSort.QuickSortAnimation.Partition | src/algorithms/quickSort.ts:117-151 | always a rearrangement of [start, end]; stopped at its first suspension, only the pivot is re-tagged; completed, the pivot sits at p between the two sides |
| QuickSort.QuickSortAnimation.PlacePivotAt | src/algorithms/quickSort.ts:146-151 | the pivot is placed before the suspension, so even a stop leaves it between the two sides |
| QuickSort.QuickSortAnimation.QuickSortAlgorithm | src/algorithms/quickSort.ts:114-158 | only [start, end] moves and its items are kept; completed with the flag set, it is sorted; start >= end or a clear flag return at once; never fails |
| QuickSort.QuickSortAnimation.SortSides | src/algorithms/quickSort.ts:153-157 | both recursive calls keep the pivot in place; completed, [start, end] is sorted and the trace ends with -1 |
| Trees.Children | src/algorithms/depthFirstSearch.ts:34-37 | every child id is a valid node greater than its parent |
| Trees.ParentOf | src/algorithms/depthFirstSearch.ts:34-37 | c is a child of p exactly when 0 < c < 7 and p == (c - 1) / 2: every node but the root has one parent |
| Trees.CreateFixedTree | src/algorithms/depthFirstSearch.ts:24-40 | seven nodes, node k with id and value k, all unvisited and `default` |
| Trees.PreOrder | src/algorithms/depthFirstSearch.ts:99-131 | the subtree at a node starts with the node and holds only nodes at or after it |
| Trees.PreOrderOfChildren | src/algorithms/depthFirstSearch.ts:115-124 | the pre-order of a node is the node followed by its children's subtrees, left to right, and the node is not among them |
| Trees.ChildSubtrees | src/algorithms/depthFirstSearch.ts:115-124 | the next child's subtree is inside the node's, misses the node, and is disjoint from the subtrees already walked |
| Trees.SubtreesApart | src/algorithms/depthFirstSearch.ts:34-37 | the subtrees of the two children of a node share no node |
| Trees.ResetStates | src/algorithms/depthFirstSearch.ts:142-147 | every node of the subtree becomes `default` and unvisited; nothing else changes |
| Trees.WalkedThen | src/algorithms/depthFirstSearch.ts:115-124 | two walks over disjoint nodes, one after the other, make one walk |
| Trees.WholeTree | src/algorithms/depthFirstSearch.ts:99-131 | a tag on every node of the root's pre-order is a tag on all seven nodes |
| DepthFirstSearch.BelowWritesThen | src/algorithms/depthFirstSearch.ts:115-124 | the writes of the next child's call join the children's writes of the call |
| DepthFirstSearch.ChildStep | src/algorithms/depthFirstSearch.ts:115-124 | one turn of the child loop extends the walk; on an all-`default` tree it walks exactly the next child's subtree |
| DepthFirstSearch.CallWritesJoin | src/algorithms/depthFirstSearch.ts:99-131 | a call writes `current` then `processing` on its node, then only below it, then `visited` on it last |
| DepthFirstSearch.DepthFirstSearchAnimation.constructor | src/algorithms/depthFirstSearch.ts:16-22 | the module state on load: seven node slots, flags clear |
| DepthFirstSearch.DepthFirstSearchAnimation.Initialize | src/algorithms/depthFirstSearch.ts:134-149 | the fixed tree, all `default`; the flag set; the sink registered |
| DepthFirstSearch.DepthFirstSearchAnimation.Build | src/algorithms/depthFirstSearch.ts:140 | the slots hold the nodes of `createFixedTree` |
| DepthFirstSearch.DepthFirstSearchAnimation.Animate | src/algorithms/depthFirstSearch.ts:151-155 | never fails. A run never stopped finishes. A stop at the first suspension (line 103) leaves the tree unchanged. Only nodes of the tree change, and only their states. A finished run on a freshly initialized tree enters 0, 1, 3, 4, 2, 5, 6 and leaves all seven `visited` |
| DepthFirstSearch.DepthFirstSearchAnimation.Cleanup | src/algorithms/depthFirstSearch.ts:157-166 | the flag is clear, no timer is pending, the idle line goes to the sink |
| DepthFirstSearch.DepthFirstSearchAnimation.SetState | src/algorithms/depthFirstSearch.ts:106 | one node's state changes, and the write is logged |
| DepthFirstSearch.DepthFirstSearchAnimation.Dfs | src/algorithms/depthFirstSearch.ts:99-131 | no sink: nothing changes. A clear flag: fails. Otherwise it enters the node and then `default` nodes below it, writing in call order; on an all-`default` subtree a completed call enters the subtree exactly, in pre-order, and leaves it `visited` |
| DepthFirstSearch.DepthFirstSearchAnimation.Enter | src/algorithms/depthFirstSearch.ts:100-113 | lines 1 to 3: stopped at the first suspension, nothing is tagged; completed, the node was tagged `current` then `processing` |
| DepthFirstSearch.DepthFirstSearchAnimation.Descend | src/algorithms/depthFirstSearch.ts:115-130 | the children are walked, then the node is `visited`; completed on an all-`default` subtree, exactly the subtree was entered |
| DepthFirstSearch.DepthFirstSearchAnimation.VisitChildren | src/algorithms/depthFirstSearch.ts:115-124 | the child loop walks inside the children's subtrees; completed, what it entered is `visited`, and on an all-`default` tree it is all of them in pre-order |
| DepthFirstSearch.DepthFirstSearchAnimation.VisitChild | src/algorithms/depthFirstSearch.ts:117-123 | a child is walked only while `default`; its writes stay inside its subtree |
| DepthFirstSearch.DepthFirstSearchAnimation.Leave | src/algorithms/depthFirstSearch.ts:126-130 | the node becomes `visited`, and a completed call ends the trace with -1 |
| BreadthFirstSearch.Enqueued | src/algorithms/breadthFirstSearch.ts:130-138 | a child is pushed exactly when it is `default`, and no more nodes are pushed than there are children |
| BreadthFirstSearch.Mark | src/algorithms/breadthFirstSearch.ts:133 | exactly the listed nodes take the tag |
| BreadthFirstSearch.EnqueuedFrame | src/algorithms/breadthFirstSearch.ts:131 | what the child loop pushes depends only on the children's states |
| BreadthFirstSearch.EnqueuedNext | src/algorithms/breadthFirstSearch.ts:130-138 | one more child is pushed exactly when it is `default` |
| BreadthFirstSearch.TurnFromBefore | src/algorithms/breadthFirstSearch.ts:125-138 | tagging the current node first does not change what its children's loop pushes |
| BreadthFirstSearch.TurnWritesOf | src/algorithms/breadthFirstSearch.ts:123-142 | a turn writes `current` on its node, `processing` on each node it pushes, and `visited` on its node last |
| BreadthFirstSearch.Front | src/algorithms/breadthFirstSearch.ts:124 | the node taken from the front is `processing`, not taken before, and not waiting again |
| BreadthFirstSearch.WalkStep | src/algorithms/breadthFirstSearch.ts:122-143 | a turn extends the set of changed nodes by exactly the nodes it pushes |
| BreadthFirstSearch.SettledThen | src/algorithms/breadthFirstSearch.ts:122-143 | after a turn, still no node is tagged `default` and no node is written after it is `visited` |
| BreadthFirstSearch.TagStep | src/algorithms/breadthFirstSearch.ts:122-143 | after a turn, the nodes taken off are `visited` and the waiting ones `processing` |
| BreadthFirstSearch.ChildrenOf | src/algorithms/breadthFirstSearch.ts:34-37 | node m < 3 has children 2m + 1 and 2m + 2, and the others none |
| BreadthFirstSearch.LevelStep | src/algorithms/breadthFirstSearch.ts:122-143 | on a tree that started all `default`, the m-th turn pushes exactly the nodes that come next in level order |
| BreadthFirstSearch.LevelGrow | src/algorithms/breadthFirstSearch.ts:130-138 | the m-th turn pushes 2m + 1 and 2m + 2 while m < 3, and nothing later |
| BreadthFirstSearch.Untouched | src/algorithms/breadthFirstSearch.ts:131 | on a tree that started all `default`, a node not yet pushed is still `default` |
| BreadthFirstSearch.EnqueuedBoth | src/algorithms/breadthFirstSearch.ts:130-138 | two `default` children are both pushed, left one first |
| BreadthFirstSearch.LevelDone | src/algorithms/breadthFirstSearch.ts:122 | when the queue empties on a tree that started all `default`, nodes 0 to 6 were taken off, in order |
| BreadthFirstSearch.DefaultShrink | src/algorithms/breadthFirstSearch.ts:122-143 | a turn tags no node `default`, and a turn that pushes takes a node out of the `default` ones: the queue loop terminates |
| BreadthFirstSearch.NextChildIsNew | src/algorithms/breadthFirstSearch.ts:35-37 | the children of a node are distinct |
| BreadthFirstSearch.PushStep | src/algorithms/breadthFirstSearch.ts:130-138 | one step of the child loop keeps its invariant: the next child is pushed exactly when `default`, and tagged `processing` |
| BreadthFirstSearch.Started | src/algorithms/breadthFirstSearch.ts:110-121 | after the root's two tags, the queue loop's invariant holds with the root alone on the queue |
| BreadthFirstSearch.Drained | src/algorithms/breadthFirstSearch.ts:122-145 | when the queue is empty, every node pushed was taken off and is `visited`; on an all-`default` tree that is all seven, in order 0 to 6 |
| BreadthFirstSearch.TurnStep | src/algorithms/breadthFirstSearch.ts:122-143 | a turn keeps the queue loop's invariant |
| BreadthFirstSearch.BreadthFirstSearchAnimation.constructor | src/algorithms/breadthFirstSearch.ts:16-22 | the module state on load: seven node slots, flags clear |
| BreadthFirstSearch.BreadthFirstSearchAnimation.Initialize | src/algorithms/breadthFirstSearch.ts:149-164 | the fixed tree, all `default`; the flag set; the sink registered |
| BreadthFirstSearch.BreadthFirstSearchAnimation.Build | src/algorithms/breadthFirstSearch.ts:155 | the slots hold the nodes of `createFixedTree` |
| BreadthFirstSearch.BreadthFirstSearchAnimation.Animate | src/algorithms/breadthFirstSearch.ts:166-170 | never fails. A run never stopped finishes. A stop at the first suspension (line 114) leaves only the root tagged `current`. A finished run on a freshly initialized tree takes off 0 to 6 in level order and leaves all seven `visited` |
| BreadthFirstSearch.BreadthFirstSearchAnimation.Cleanup | src/algorithms/breadthFirstSearch.ts:172-181 | the flag is clear, no timer is pending, the idle line goes to the sink |
| BreadthFirstSearch.BreadthFirstSearchAnimation.SetState | src/algorithms/breadthFirstSearch.ts:112 | one node's state changes, and the write is logged |
| BreadthFirstSearch.BreadthFirstSearchAnimation.Bfs | src/algorithms/breadthFirstSearch.ts:107-146 | no sink: nothing changes. Only pushed nodes change, no node is written after it is `visited`, and the root's writes come first. Completed: everything pushed was taken off and is `visited`, and the trace ends with -1. On an all-`default` tree, that is 0 to 6 in level order |
| BreadthFirstSearch.BreadthFirstSearchAnimation.Drain | src/algorithms/breadthFirstSearch.ts:121-143 | the queue loop terminates and keeps its invariant; completed, the queue is empty |
| BreadthFirstSearch.BreadthFirstSearchAnimation.Begin | src/algorithms/breadthFirstSearch.ts:110-119 | the root is tagged `current` then `processing`; stopped at the first suspension, only the root is `current`; completed, the loop invariant holds with the root queued |
| BreadthFirstSearch.BreadthFirstSearchAnimation.Visit | src/algorithms/breadthFirstSearch.ts:123-142 | the turn appends its pushes to the queue; they are distinct `default` children; its writes are a turn's writes; completed, it pushed exactly the `default` children and left the node `visited` |
| BreadthFirstSearch.BreadthFirstSearchAnimation.EnqueueChildren | src/algorithms/breadthFirstSearch.ts:129-138 | the child loop tags and appends only distinct `default` children, one write each; completed, it pushed exactly the `default` children, in order |
| BreadthFirstSearch.BreadthFirstSearchAnimation.Enqueue | src/algorithms/breadthFirstSearch.ts:132-136 | the child becomes `processing` and the write is logged |

## Left out

- Rendering with D3 (`drawBars`, `drawTree`), and the `svg`, `width` and `height` fields. They draw the state and never change it.
- Timing (`delay`, `speed`, `setTimeout`). A suspension resumes unless the stop oracle says `cleanup` interrupts it there. Concurrent `animate` calls on one module are not modelled.
- `Math.random()`. Its draws are a parameter of `initialize`.
- The line ids sent to the sink are a ghost trace. The contracts state its last entries. They do not state every id sent in between.
- The React components, `index.ts` and `types.ts`. They call the four algorithms and are not part of this model.
- A node object's `x`, `y` and `children` fields. Layout is rendering. The links are fixed, and the `Children` function holds them.
- The `visited` field of a tree node. `createFixedTree` and `resetStates` set it to false, and no other code reads or writes it. The model keeps it in the record.
- Node identity. The tree is modelled as an array of node records indexed by id, not as linked objects.
- The node order of an interrupted or repeated run: the order is proved only for a finished run on a tree that started all `default`. For any other tree the contracts state which nodes change, not the order.
- BubbleSort.BubbleSortAnimation.Animate: stopped inside a swap, the stated state is "a rearrangement with one record doubled and one lost". The exact position of every record is not stated.
- QuickSort.QuickSortAnimation.Animate: the tags after a finished run are not stated, including the stray `comparing` tags.
- Bars.RandomValue: the product `u * 100` is exact here. JavaScript rounds it to a double before `Math.floor`, so for some draws the source's value is one more than the model's (u = 0.3 gives 31, not 30). Both lie in 1..100.
- BubbleSort.Tag2: records are values here, while the source's array holds shared objects. A stop between the two assignments of a swap leaves one object at both i and i + 1 in the source; when a later run tags one of those positions, the other changes too. This frame ("nothing else changes") does not capture that. A finished run's sortedness, items and `sorted` tags are not affected.
- BubbleSort.ComparePair: the same object sharing after a torn swap is not captured by its "nothing else changes".
- BubbleSort.BubbleSortAnimation.Retag: the same object sharing after a torn swap is not captured by its "nothing else changes".
- BubbleSort.BubbleSortAnimation.MarkSorted: the same object sharing after a torn swap is not captured by "nothing beyond n changes".
- BubbleSort.Settled: the same object sharing after a torn swap is not captured by the settled suffix keeping its tags.
- BubbleSort.PassKeepsSuffix: the same object sharing after a torn swap is not captured by the settled suffix keeping its tags.
- BubbleSort.SettleLast: the same object sharing after a torn swap is not captured by the settled suffix keeping its tags.
