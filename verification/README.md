# Pwrake and mosaic kernels, verified

A Dafny model of the parts of this repository where a mistake would be hard to see:

* **the Pwrake scheduler** (`lib/pwrake`): the depth-first search that fetches ready tasks, the
  invoker and its worker threads as a system of interleaved steps, the per-host queues that hold a
  task several times and deliver it once, and the memoised throughput table that steers stealing;
* **the kernels of the mosaic library** (`demo/spcam/.../mosaic`): matrix inversion, running central
  moments, quickselect and median, radix sort, heapsort and the weighted median, triangle matching,
  frame connection, the sky histogram, the shadow flood fill and the object detector on top of it;
* **the authentication negotiation** (`handson/ex2/lib/libgfarm/gfarm`), written once as a blocking
  loop and once as callbacks.

Code that works in place is modelled by classes, arrays and loops. Each such method is proved equal
to a function on values, and the promises are proved about that function; where they are about one
call, the contract says them again in terms of inputs and old state alone. Reals stand for floats and
doubles. `dafny verify dfyconfig.toml` checks everything.

| files | source |
|---|---|
| `TaskGraph`, `Tracing`, `SearchOrder`, `Operating`, `OperatorRuns` | `lib/pwrake/algorithm.rb` |
| `Throughputs`, `HostQueues`, `TaskQueues`, `Waking` | `lib/pwrake/affinity.rb`, `lib/pwrake/scheduler.rb` |
| `OperatorWaking` | `algorithm.rb` on the queue of `scheduler.rb` |
| `MatrixAlgebra`, `Determinants`, `Cofactors`, `MatrixInverse` | `mativ2` in `oyamin2b.c` |
| `Moments` | `moment2d.c` |
| `Quickselect`, `RadixSort`, `Heapsort`, `WeightedMedian` | `sub_sort.c`, `sub_sortd.c`, `sub_stat.c` |
| `TriangleShapes`, `Triangles`, `Connection` | `match_sub2.c`, `match_stack5b.c` |
| `SkyHistogram` | `skydet2b` in `skysb_sub.c` |
| `FloodFill`, `FloodLists`, `FloodSteps`, `FloodConnected`, `FloodTouching` | `paint_sub.c` |
| `FloodHanging`, `FloodRows`, `FloodComponents` | when `paint_sub.c` is right |
| `FloodExample`, `FloodCrash`, `FloodLoop`, `DetectionExamples` | where it goes wrong |
| `Detection` | `detect_sub3.c` |
| `AuthNegotiation` | `auth_client.c`, `auth_config.c` |
| `Sequences`, `Sums` | shared by several of these |

## Where the code does not do what it promises

* **The flood fill can mark a pixel that is not connected to its seed.** `removeOverlap` is called for
  every shadow of the row that begins before the end of the run, also for one that ends before the
  run begins; `clipShadow` then makes a shadow that reaches beyond the run. `FloodExample.WrongPixel`
  is a whole fill of a ten by five image, from its first pixel, that goes wrong, so that the object
  detector makes one object of two components (`DetectionExamples.DetectorMerges`).
* **The flood fill can follow a null pointer**, because a shadow it compares with may look for a child
  in a row without any. `FloodCrash.NullPointer` is such a fill, of a ten by seven image, again from its
  first pixel, so that the detector ends with it (`DetectionExamples.DetectorCrashes`);
  `FloodFill.CrashesExactly` tells the moment.
* **The flood fill can go on for ever**: `FloodLoop.NeverEnds`, for a caller with this eight by five
  image and this seed.
* **None of the three happens on an image without pockets**: when every run of connected pixels touches
  a connected run one row nearer to the seed, and the seed's row has one such run (`Hanging`). A caller
  can check that before the fill; runs may branch and join, and images whose passing pixels lie side
  by side in each row are the simplest case (`FloodComponents.OneRunHangs`). Then the fill ends, follows
  no null pointer, and marks exactly the connected cells that were 0 (`FloodRows.HangingFill`), and
  the objects of the detector are exactly the connected components (`Detection.DetectNew3`,
  `Detection.ObjectsAreComponents`). On any image, the test that `removeOverlap` leaves out, that the
  two shadows touch, is enough for connected marks (`FloodTouching.TouchingFill`).
* **`finish` can leave a single worker asleep for ever.** It sets its flag and signals without the
  mutex, between the worker's look at the flag and its wait. `Waking.FinishIsHeard` says that this
  happens with one worker only.
* **A queue with a single worker can sleep over a task of another host**: `Waking.NoTaskSleptOver` says
  exactly when. Only a queue used outside `Operator` can fail so: `Operator` makes a worker for every
  host of its queue, and then no task is slept over (`Waking.OperatorIsManned`), and no call waits for
  one (`OperatorWaking.NoDeadlock`).
* **With a list of different speeds for the two directions, `interhost` depends on which direction was
  asked first.** `Throughputs.HistoryMatters` says that nothing else makes it depend on what was asked;
  `Throughputs.TwoWay` is an example.
* **With an empty host list, tasks go to the `nil` queue, which `empty?` does not look at**
  (`HostQueues.EmptyMeansNoTasks`, `HostQueues.PushWithoutHosts`), and no worker ever gets one.
* **A task pushed again while it is queued is counted twice** (`HostQueues.PushKeeps`).
* **`nth` at the last rank returns the last element, sorted or not.** `Quickselect.WholeRankIff` says
  exactly for which ranks and data the answer is right, `Quickselect.LastRankFails` gives the smallest
  failure.
* **The cosine of a triangle is not that of its first corner**, as the comment beside it says, but of the
  second (`TriangleShapes.RatioAndCosine`), and **the corners of a triangle with two equal sides depend
  on the order of its points** (`TriangleShapes.OrderFree`).
* **The bins of the sky histogram lie half a bin lower than the drawing in `skydet2b` shows them**:
  bin `n` is centred at `vmin` plus `n` bin widths and does not begin there (`SkyHistogram.InBin`).
* **The connection check never accepts a single frame** (`Connection.SingleFrame`).

## Model

| member | source | states |
|---|---|---|
| Tracing.SearchFromKeeps | lib/pwrake/algorithm.rb:32-72 | a search started anywhere below the root either reports a chain that really closes a cycle, or leaves footprint, flags, fetched table and batch exact for the tasks explored so far |
| Tracing.RaisesIffCycle | lib/pwrake/algorithm.rb:32-72 | the circular-dependency error is raised if and only if a cycle is reachable through tasks neither invoked nor fetched, and the chain printed is such a cycle |
| Tracing.RoundIsExact | lib/pwrake/algorithm.rb:14-72 | without a cycle, a call returns exactly the reachable tasks that are needed and have every prerequisite invoked, each once, and marks exactly the reachable ready tasks that are not needed |
| Tracing.RoundProgresses | lib/pwrake/algorithm.rb:14-30 | when every fetched task has been invoked, a call answers nil exactly when the root is invoked and exactly when it fetched nothing |
| SearchOrder.PrerequisitesInOrder | lib/pwrake/algorithm.rb:43-59 | at every task entered: among what the search finds anew, all that the first i prerequisites lead to is finished before everything else, the task itself included |
| SearchOrder.TaskComesLast | lib/pwrake/algorithm.rb:43-71 | the last task that a search finishes is the one it started from |
| SearchOrder.BatchInOrder | lib/pwrake/algorithm.rb:57-67 | the batch is the tasks finished that were fetched and are needed, in the order they were finished in |
| SearchOrder.BatchFollowsPrerequisites | lib/pwrake/algorithm.rb:14-30 | in the batch of a round, tasks that the first i prerequisites of the root lead to stand before all others |
| Tracing.OrderedHasNoCycle | lib/pwrake/algorithm.rb:43-59 | an exploration in which every task follows its prerequisites rules out a reachable cycle and holds every reachable task |
| Tracing.Tracer.FindTask | lib/pwrake/algorithm.rb:32-72 | the recursive method with its loop over the prerequisites leaves the state and answer of the search function |
| Tracing.Tracer.AvailableTask | lib/pwrake/algorithm.rb:14-30 | one call with a fresh footprint and batch is one round of the specification |
| Operating.StepKeeps | lib/pwrake/algorithm.rb:102-120 | every step of the invoker or of any worker keeps the invariant: each task of the batch is in exactly one place, and what is started, ended and flagged agrees with that place |
| OperatorRuns.EveryRunIsSafe | lib/pwrake/algorithm.rb:102-179 | in every interleaved run a task starts at most once, only if it is needed, and only after each prerequisite ended or was found not needed, although its flag is set before it executes; "b is not included in a" is never raised |
| OperatorRuns.CyclesStopTheRun | lib/pwrake/algorithm.rb:39-41 | when a cycle is reachable, no task is ever started |
| OperatorRuns.RoundFetches | lib/pwrake/algorithm.rb:61-65 | each round takes its whole batch out of the tasks still to be fetched, and the batch is empty only when the loop ends |
| OperatorRuns.RunsAreBounded | lib/pwrake/algorithm.rb:162-179 | every run is finite, within a bound linear in tasks and workers, so the invoke loop ends under every schedule |
| OperatorRuns.FinishedRun | lib/pwrake/algorithm.rb:150-194 | a run in which nothing more can happen has failed if and only if a cycle is reachable; otherwise it executed exactly the needed reachable tasks and skipped exactly the other reachable ones |
| Throughputs.Throughput.constructor | lib/pwrake/affinity.rb:60-74 | without a list, empty tables and the minimum 1 |
| Throughputs.Throughput.FromList | lib/pwrake/affinity.rb:60-74 | with a list, the last entry for a pair counts and the minimum is a smallest listed value |
| Throughputs.Throughput.InterDomain | lib/pwrake/affinity.rb:76-90 | after any history of calls the answer is the listed speed, else the listed speed turned round, else 1 for equal domains and 0.1 otherwise |
| Throughputs.Throughput.InterHost | lib/pwrake/affinity.rb:92-106 | after any history of calls a default table answers 1 for two hosts whose names go on alike after their first dots, 0.1 for all others, a nil second host included, and 1 for a nil first host; with a list the answer is the listed speed of those two domains in one order or the other |
| Throughputs.DomainIs | lib/pwrake/affinity.rb:108-111 | the domain of a host is d if and only if its name is p.d with no dot in p, or it has no dot and d is empty |
| Throughputs.AskTurnedFirst | lib/pwrake/affinity.rb:95-98 | with any list, asking for the speed from b to a first makes it the answer for a to b |
| Throughputs.AskAfter | lib/pwrake/affinity.rb:92-106 | the answer after any history of calls of interhost and interdomain |
| Throughputs.HistoryMatters | lib/pwrake/affinity.rb:92-106 | the answer for two hosts is the same after every history of calls if and only if the list gives one speed for both directions between their domains, or the second host is nil |
| Throughputs.TwoWay | lib/pwrake/affinity.rb:95-98 | a list of two entries with which the answer is 1 when asked directly and 2 after the other direction |
| HostQueues.PushKeeps | lib/pwrake/affinity.rb:128-143 | a push keeps the bookkeeping if and only if the task is not queued: then each queued task sits exactly in the queues of its located hosts, as often as they are listed, or in one queue, and the size is the number of distinct tasks |
| HostQueues.PopKeeps | lib/pwrake/affinity.rb:145-155 | a pop removes the task from the bag and keeps the layout of every other task |
| HostQueues.ShiftAndDelete | lib/pwrake/affinity.rb:147-150 | shifting the head and deleting it from the queues of its assigned list takes it out of every queue |
| HostQueues.AltKeyIsBest | lib/pwrake/affinity.rb:157-175 | the key chosen has greatest throughput times length, and it yields a task unless every queue is empty |
| HostQueues.EmptyMeansNoTasks | lib/pwrake/affinity.rb:181-183 | empty? agrees with the bag of queued tasks if and only if there is a host or no task is queued |
| HostQueues.HostQueue.Push | lib/pwrake/affinity.rb:128-143 | after any push the size is one more, and each queue has the task at its end as often as its host is listed for the task, or once in the queue drawn if none is; the queues a task not queued before sits in |
| HostQueues.HostQueue.Pop | lib/pwrake/affinity.rb:145-155 | delivers the head of the host's queue and takes that task out of all queues, which are otherwise as they were; without a head nothing changes |
| HostQueues.HostQueue.PopAlt | lib/pwrake/affinity.rb:157-175 | delivers the head of the first queue with the greatest speed times length and takes that task out of all queues; nothing only if all are empty |
| HostQueues.HostQueue.Empty | lib/pwrake/affinity.rb:181-183 | true exactly when no host queue holds a task, which tells that no task is queued if and only if there is a host or none is queued |
| HostQueues.PushWithoutHosts | lib/pwrake/affinity.rb:139-143 | without hosts, a task that was pushed is held by a queue that calls itself empty |
| TaskQueues.AffinityQueue.Push | lib/pwrake/scheduler.rb:53-60 | after any batch the queues are those of its tasks pushed one by one; if none of them was queued, each is now, and pushes stay deliveries plus queued tasks |
| TaskQueues.AffinityQueue.TryPop | lib/pwrake/scheduler.rb:62-95 | one pass of pop stops only when told to; else it delivers the head of its own host's queue; without one, while tasks are queued, it waits once more as long as it has waited less than twice, and then steals the head of the first queue with the greatest speed times length; without tasks or hosts it waits; the queues are as they were, without the task delivered |
| TaskQueues.PushedOnce | lib/pwrake/scheduler.rb:53-95 | a task pushed once is queued or has been delivered, never both and never twice |
| TaskQueues.StopsInTurn | lib/pwrake/scheduler.rb:66-68 | a thread told to end stops at its first pass after all threads told before it have stopped, whatever passes there are |
| Waking.SomeStep | lib/pwrake/scheduler.rb:62-95 | as long as not every worker is asleep or gone, some worker can do a step |
| Waking.NoTaskSleptOver | lib/pwrake/scheduler.rb:53-95 | no run comes to a stand with tasks queued before finish, if and only if there are two workers or more, or every task is at home with the only one |
| Waking.FinishIsHeard | lib/pwrake/scheduler.rb:62-100 | every run that comes to a stand after finish has ended all workers, if and only if there is not just one worker |
| Waking.QuietRunsEnd | lib/pwrake/scheduler.rb:62-95 | between pushes a run is finite under every schedule, within a bound on queued tasks and workers |
| Waking.OperatorIsManned | lib/pwrake/algorithm.rb:82-97 | with a worker for every host of the queue, and tasks at such hosts only, no run sleeps over a task, be it one worker or many |
| OperatorWaking.StepKeeps | lib/pwrake/algorithm.rb:102-179 | invoker, workers, mutex and condition variable together: every step keeps both invariants, and what the queue holds and who is busy agree |
| OperatorWaking.RunKeeps | lib/pwrake/algorithm.rb:102-179 | whoever sleeps and is woken, invoker and tasks go through a run of the simpler system, so its safety holds of every run |
| OperatorWaking.NoDeadlock | lib/pwrake/scheduler.rb:62-95 | while a call is not over, some step is possible: the barrier never waits for a task over which the workers sleep |
| OperatorWaking.RunsAreBounded | lib/pwrake/scheduler.rb:53-100 | every run is finite, whatever the schedule and whichever sleeper a signal wakes |
| OperatorWaking.FinishedRun | lib/pwrake/algorithm.rb:150-194 | a run that comes to a stand has failed if and only if a cycle is reachable; otherwise it executed exactly the needed reachable tasks, skipped exactly the others, and of two workers or more none is left |
| MatrixAlgebra.SweepExchanges | demo/spcam/sdfred20100528/mosaic/libsrc/oyamin2b.c:79-100 | an elimination step exchanges one unknown with one right-hand side and keeps the linear relation, in both directions |
| MatrixAlgebra.MixedSweep | demo/spcam/sdfred20100528/mosaic/libsrc/oyamin2b.c:79-100 | the relation between solved and unsolved coordinates survives each elimination step |
| MatrixAlgebra.MixedColumns | demo/spcam/sdfred20100528/mosaic/libsrc/oyamin2b.c:67-78 | it survives the exchange of columns, with the permutation updated |
| MatrixAlgebra.MixedRows | demo/spcam/sdfred20100528/mosaic/libsrc/oyamin2b.c:108-119 | it survives the exchange of rows in the final loop |
| MatrixAlgebra.MixedFinally | demo/spcam/sdfred20100528/mosaic/libsrc/oyamin2b.c:104-121 | when every row is in its place, the matrix left is the inverse from both sides |
| Determinants.SweepDivides | demo/spcam/sdfred20100528/mosaic/libsrc/oyamin2b.c:65-100 | a step takes its pivot as a factor out of the determinant of what is still to be eliminated |
| Cofactors.DetIsDeterminant | demo/spcam/sdfred20100528/mosaic/libsrc/oyamin2b.c:59-65 | the expansion along the first row obeys the laws of determinants: exchanged, scaled and added columns, added rows, and the identity |
| MatrixInverse.FindPivot | demo/spcam/sdfred20100528/mosaic/libsrc/oyamin2b.c:49-58 | the largest entry of the rest of the row, the first of several |
| MatrixInverse.Eliminate | demo/spcam/sdfred20100528/mosaic/libsrc/oyamin2b.c:79-100 | the loops in place compute one sweep of the whole matrix |
| MatrixInverse.MisplacedShrinks | demo/spcam/sdfred20100528/mosaic/libsrc/oyamin2b.c:104-121 | each exchange of the final loop puts one more row in its place, so it ends |
| MatrixInverse.Unscramble | demo/spcam/sdfred20100528/mosaic/libsrc/oyamin2b.c:104-121 | the final loop turns the eliminated matrix into the inverse and gives the result the right sign |
| MatrixInverse.Mativ2 | demo/spcam/sdfred20100528/mosaic/libsrc/oyamin2b.c:16-124 | if the result is not zero, the array holds the exact inverse of its former contents and the result is their determinant; the result is zero if and only if some step finds no entry larger than a hundred millionth of the largest pivot taken before |
| Moments.CoefficientIsExact | demo/spcam/sdfred20100528/mosaic/starsel/moment2d.c:103-104 | the divisions of tabulated factorials leave no remainder, give the product of two binomial coefficients, and stay within 32 bits |
| Moments.BinomialTheorem | demo/spcam/sdfred20100528/mosaic/starsel/moment2d.c:98-106 | the binomial expansion in one coordinate |
| Moments.Recentred | demo/spcam/sdfred20100528/mosaic/starsel/moment2d.c:94-109 | the double loop turns all moments about the old centre into the moment about the new one, for any set of masses |
| Moments.MeansAdvance | demo/spcam/sdfred20100528/mosaic/starsel/moment2d.c:62-80 | the update of the means gives the weighted means of all points |
| Moments.Moment2D.Recentre | demo/spcam/sdfred20100528/mosaic/starsel/moment2d.c:90-109 | the two accumulated values of one entry, reading entries not yet overwritten |
| Moments.Moment2D.AddRaw | demo/spcam/sdfred20100528/mosaic/starsel/moment2d.c:40-117 | after any additions with non-zero weight sums every kept entry of both tables is the weighted sum of (x - mean)^i (y - mean)^j over all points, although the tables are overwritten in place |
| Moments.LowOrders | demo/spcam/sdfred20100528/mosaic/starsel/moment2d.c:40-117 | what the first entries of the tables are: weight, flux, zero for the first moments since the means are the centre, and the weighted squares and products of the distances from the means |
| Moments.PowAdds | demo/spcam/sdfred20100528/mosaic/starsel/moment2d.c:98-106 | one factor for each unit of the exponent |
| Quickselect.AscendingUnique | demo/spcam/sdfred20100528/mosaic/libsrc/sub_sort.c:224-309 | data have one ascending arrangement only, so the sorted data are well defined |
| Quickselect.PartitionSorts | demo/spcam/sdfred20100528/mosaic/libsrc/sub_sort.c:241-264 | sorting data partitioned around a value sorts the smaller part, then the equal one, then the larger one |
| Quickselect.Partition | demo/spcam/sdfred20100528/mosaic/libsrc/sub_sort.c:241-264 | the pass puts equal, smaller and larger elements side by side and rearranges only its stretch |
| Quickselect.FloatMax | demo/spcam/sdfred20100528/mosaic/libsrc/sub_sort.c:214-222 | the last of the sorted elements |
| Quickselect.FloatMin | demo/spcam/sdfred20100528/mosaic/libsrc/sub_sort.c:204-212 | the first of the sorted elements |
| Quickselect.NthElement | demo/spcam/sdfred20100528/mosaic/libsrc/sub_sort.c:224-309 | for a rank below the last, the value as far between the two neighbours of the rank, in any ascending arrangement of the data, as the rank is between theirs, leaving a permutation; beyond, an end element and the array untouched |
| Quickselect.WholeRankIff | demo/spcam/sdfred20100528/mosaic/libsrc/sub_sort.c:231-232 | at a whole rank the element of that rank is returned if and only if the rank is not the last or the data end with their maximum |
| Quickselect.LastRankFails | demo/spcam/sdfred20100528/mosaic/libsrc/sub_sort.c:231 | the maximum of 2, 1 asked for by rank comes back as 1 |
| Quickselect.MedianIsNth | demo/spcam/sdfred20100528/mosaic/libsrc/sub_stat.c:120 | rank (n - 1) / 2 is the middle element, or the mean of the middle two |
| Quickselect.FloatMedian | demo/spcam/sdfred20100528/mosaic/libsrc/sub_stat.c:107-123 | the median of the data, which stay as they are |
| RadixSort.PassesSort | demo/spcam/sdfred20100528/mosaic/libsrc/sub_sort.c:24-39 | after j passes the words ascend by their low j bytes, words that agree there keep their first order, and none is lost |
| RadixSort.FourPassesSort | demo/spcam/sdfred20100528/mosaic/libsrc/sub_sort.c:7-41 | four passes sort any array of 32-bit words |
| RadixSort.CountDigits | demo/spcam/sdfred20100528/mosaic/libsrc/sub_sort.c:26-29 | the counters hold the number of words with each byte value |
| RadixSort.AddUp | demo/spcam/sdfred20100528/mosaic/libsrc/sub_sort.c:31-32 | the counters become the ends of the groups |
| RadixSort.PlaceStep | demo/spcam/sdfred20100528/mosaic/libsrc/sub_sort.c:34-35 | placing one more word, from the last one back, never leaves its group and keeps the placed tails of all groups |
| RadixSort.Place | demo/spcam/sdfred20100528/mosaic/libsrc/sub_sort.c:34-35 | the placement is the stable grouping by the byte |
| RadixSort.MosRadixSort | demo/spcam/sdfred20100528/mosaic/libsrc/sub_sort.c:7-41 | the array becomes an ascending permutation of itself, whatever the static buffer held |
| Heapsort.SiftHeaps | demo/spcam/sdfred20100528/mosaic/libsrc/sub_sort.c:154-175 | sinking an item repairs a heap that is broken at one node |
| Heapsort.UnloadStep | demo/spcam/sdfred20100528/mosaic/libsrc/sub_sort.c:177-201 | moving the root behind the shrinking heap keeps heap, sorted tail and their bound |
| Heapsort.HeapSortedSorts | demo/spcam/sdfred20100528/mosaic/libsrc/sub_sort.c:146-202 | the result ascends by key and holds the same pairs |
| Heapsort.SiftDown | demo/spcam/sdfred20100528/mosaic/libsrc/sub_sort.c:156-174 | the loop that moves a hole down computes the sinking of the item, for keys and values together |
| Heapsort.Heapsort2 | demo/spcam/sdfred20100528/mosaic/libsrc/sub_sortd.c:178-234 | keys ascend in place and every value stays with its key |
| WeightedMedian.WeightPermutes | demo/spcam/sdfred20100528/mosaic/libsrc/sub_stat.c:80-84 | the weight of the data below or above a value does not depend on their order |
| WeightedMedian.StopsAtMedian | demo/spcam/sdfred20100528/mosaic/libsrc/sub_stat.c:88-101 | where the running weight first reaches half of the total, the value chosen has at most half the weight on each side |
| WeightedMedian.FloatWeightedMedian | demo/spcam/sdfred20100528/mosaic/libsrc/sub_stat.c:56-105 | with weights that are not negative, the smallest value at or below which half the weight lies, or, if that is exactly half, the mean of it and the next value; with equal positive weights the plain median; no index leaves the data |
| WeightedMedian.AnswerIsUnique | demo/spcam/sdfred20100528/mosaic/libsrc/sub_stat.c:88-101 | with positive weights only one value is such an answer |
| WeightedMedian.HalfAbove | demo/spcam/sdfred20100528/mosaic/libsrc/sub_stat.c:88-101 | the weight at or above the next value is all that does not lie at or below the value before it |
| Triangles.ScanIsBest | demo/spcam/sdfred20100528/mosaic/match/match_sub2.c:322-350 | the scan finds the first accepted candidate of smallest key, and nothing exactly when no accepted candidate has a key below 9999 |
| Triangles.WindowIsEnough | demo/spcam/sdfred20100528/mosaic/match/match_sub2.c:323-328 | candidates outside the window fail the test, so the windowed scan equals the full one |
| Triangles.MaxDRatio | demo/spcam/sdfred20100528/mosaic/match/match_sub2.c:269-279 | the largest ratio error of the list |
| Triangles.SearchWindow | demo/spcam/sdfred20100528/mosaic/match/match_sub2.c:322-350 | the moving start and the early break search exactly the window |
| Triangles.MatchingTriangle | demo/spcam/sdfred20100528/mosaic/match/match_sub2.c:281-372 | every entry names a triangle of each of the caller's lists that meet all four inequalities, with their sense and difference of logarithms, and the key of the entry is the least, and its triangle the first of those, among all candidates of the longer list; each triangle of the shorter list with an acceptable candidate of key below 9999 has exactly one entry, in order |
| Triangles.AlikeMeans | demo/spcam/sdfred20100528/mosaic/match/match_sub2.c:332-339 | the test is the four inequalities, and does not depend on which of the two triangles is named first |
| Triangles.EveryTripleOnce | demo/spcam/sdfred20100528/mosaic/match/match_sub2.c:131-255 | the loops visit every triple i < j < k exactly once |
| Triangles.RoomIs | demo/spcam/sdfred20100528/mosaic/match/match_sub2.c:112-117 | n (n - 1) (n - 2) / 6 is the number of triples, so the buffers are filled exactly |
| Triangles.MakeTriangleList | demo/spcam/sdfred20100528/mosaic/match/match_sub2.c:98-267 | ascending by ratio, with just one record on any three points if no two coincide, and every number of it right for the corners that it names: roles, orientation, ratio, cosine, size and all three errors |
| Triangles.ListFits | demo/spcam/sdfred20100528/mosaic/match/match_sub2.c:234-241 | for points that do not coincide no error of a ratio is negative, as the window of the search needs it |
| TriangleShapes.RolesSort | demo/spcam/sdfred20100528/mosaic/match/match_sub2.c:137-195 | the branches give the three corners so that the shortest side lies opposite the first and the middle one opposite the second |
| TriangleShapes.OrderFree | demo/spcam/sdfred20100528/mosaic/match/match_sub2.c:145-195 | three different corners play the same parts in whatever order they are given, if and only if no two sides are equal |
| TriangleShapes.RatioAndCosine | demo/spcam/sdfred20100528/mosaic/match/match_sub2.c:220-229 | the ratio is that of longest to shortest side, and the cosine that of the angle between them, at the second corner |
| TriangleShapes.MeasureDescribes | demo/spcam/sdfred20100528/mosaic/match/match_sub2.c:137-241 | the record of three points: opposite sides ascend, with the later point first for equal ones; ratio and cosine; with e the square of the position error times the sum of the squared sides, the error of the ratio is e / x^2 for the shortest side, and that of the cosine follows from scalar product and area |
| TriangleShapes.SimilarTriangles | demo/spcam/sdfred20100528/mosaic/match/match_sub2.c:220-232 | moving, turning, scaling and mirroring change neither corners nor ratio nor cosine; only mirroring turns the orientation; the logarithms of the perimeters differ by that of the scale |
| Connection.AcceptKeeps | demo/spcam/sdfred20100528/mosaic/match/match_stack5b.c:352-374 | relabelling keeps labels faithful: equal labels only where accepted pairs link |
| Connection.LabelsTellLinks | demo/spcam/sdfred20100528/mosaic/match/match_stack5b.c:352-374 | two frames share a non-zero label if and only if accepted pairs link them |
| Connection.ZeroMeansAlone | demo/spcam/sdfred20100528/mosaic/match/match_stack5b.c:353-374 | label 0 means that no accepted pair names the frame |
| Connection.Frames.Accept | demo/spcam/sdfred20100528/mosaic/match/match_stack5b.c:352-374 | the labels after one accepted pair |
| Connection.Frames.Clear | demo/spcam/sdfred20100528/mosaic/match/match_stack5b.c:579-580 | the labels start again for the second pass, with label numbers not reused |
| Connection.Frames.Check | demo/spcam/sdfred20100528/mosaic/match/match_stack5b.c:384-402 | the flag stays 0 if and only if accepted pairs link all frames, each one also to itself |
| Connection.SeveralFrames | demo/spcam/sdfred20100528/mosaic/match/match_stack5b.c:384-402 | for two frames or more this is that every two different frames are linked |
| Connection.SingleFrame | demo/spcam/sdfred20100528/mosaic/match/match_stack5b.c:387-395 | without pairs no frame is linked to itself, so a single frame is refused |
| SkyHistogram.FourQuarters | demo/spcam/sdfred20100528/mosaic/skysb/skysb_sub.c:644-671 | the direct histogram of a full mesh is the sum of its four quarters, for odd mesh sizes too |
| SkyHistogram.CountIsSize | demo/spcam/sdfred20100528/mosaic/skysb/skysb_sub.c:644-657 | the direct histogram counts each pixel of the rectangle once that is not ignored and lies from half a bin below to half a bin above the middle of bin n |
| SkyHistogram.FillQuarter | demo/spcam/sdfred20100528/mosaic/skysb/skysb_sub.c:644-657 | the counting loops give the direct histogram of a quarter |
| SkyHistogram.Merge | demo/spcam/sdfred20100528/mosaic/skysb/skysb_sub.c:659-672 | merging gives the direct histogram of mesh (im - 1, jm - 1) and spares the quarters still needed |
| SkyHistogram.SkyDet | demo/spcam/sdfred20100528/mosaic/skysb/skysb_sub.c:634-881 | every mesh is fitted on its direct histogram, although only two rows of quarters are kept, overwritten and swapped |
| FloodFill.RunMarks | demo/spcam/sdfred20100528/mosaic/libsrc/paint_sub.c:161-213 | at any moment of any fill, every marked pixel passes the check, lay on a cell that was 0, and was marked and reported once |
| FloodFill.SeedMarked | demo/spcam/sdfred20100528/mosaic/libsrc/paint_sub.c:278-296 | a seed that passes, on a cell that is 0, is marked by the first visit |
| FloodFill.VisitCovers | demo/spcam/sdfred20100528/mosaic/libsrc/paint_sub.c:161-213 | a visit that does not crash marks every cell that is 0 and joined by passing pixels of its row to a column of the shadow |
| FloodFill.CrashesExactly | demo/spcam/sdfred20100528/mosaic/libsrc/paint_sub.c:119-159 | makeShadows follows a null pointer if and only if it comes to a shadow, not spent, made from a row without a pending shadow, the ones just cast included |
| FloodConnected.TouchIsExact | demo/spcam/sdfred20100528/mosaic/libsrc/paint_sub.c:115-129 | removing an overlap leaves only parts of the two shadows if and only if they touch |
| FloodConnected.HarmlessIsExact | demo/spcam/sdfred20100528/mosaic/libsrc/paint_sub.c:115-129 | if all passing columns of both shadows are connected, this stays so if and only if every column the removal adds fails the check or is connected |
| FloodConnected.TouchIsHarmless | demo/spcam/sdfred20100528/mosaic/libsrc/paint_sub.c:115-129 | a removal on shadows that touch adds no such column, whatever the image |
| FloodConnected.CastClean | demo/spcam/sdfred20100528/mosaic/libsrc/paint_sub.c:131-150 | the shadows cast by a connected run have connected passing columns only |
| FloodConnected.RunFromShadow | demo/spcam/sdfred20100528/mosaic/libsrc/paint_sub.c:169-209 | a run over a shadow with connected passing columns is connected to the seed |
| FloodConnected.MarksConnected | demo/spcam/sdfred20100528/mosaic/libsrc/paint_sub.c:271-306 | if no removal of the run adds a passing column that is not connected, every marked pixel is 4-connected to the seed through passing pixels |
| FloodConnected.ConnectedExactly | demo/spcam/sdfred20100528/mosaic/libsrc/paint_sub.c:271-306 | a fill that has not crashed has marked connected pixels only, if and only if each run met by a shadow it visited has only connected pixels on cells that were 0 |
| FloodConnected.OnBlankMap | demo/spcam/sdfred20100528/mosaic/libsrc/paint_sub.c:161-213 | on a map of zeros this is that every passing column of the visited shadow is connected |
| FloodTouching.TouchingFill | demo/spcam/sdfred20100528/mosaic/libsrc/paint_sub.c:115-129 | a fill whose removals all are on shadows that touch marks pixels connected to the seed only, whatever the image |
| FloodHanging.RowConvexHangs | demo/spcam/sdfred20100528/mosaic/libsrc/paint_sub.c:271-306 | when the connected pixels of each row are one run, there are no pockets |
| FloodHanging.Joins | demo/spcam/sdfred20100528/mosaic/libsrc/paint_sub.c:152-158 | where the shadows of the row are ordered and apart and cover the passing columns beyond, the loop cuts each behind the run and leaves of what was cast back only shadows that find nothing |
| FloodHanging.RowWorks | demo/spcam/sdfred20100528/mosaic/libsrc/paint_sub.c:285-303 | a row away from the seed is worked off, in as many steps as it has shadows, with every run of it marked and cast forward once |
| FloodHanging.RowRests | demo/spcam/sdfred20100528/mosaic/libsrc/paint_sub.c:285-303 | on an image without pockets that is every connected run of the row |
| FloodRows.RowOf | demo/spcam/sdfred20100528/mosaic/libsrc/paint_sub.c:55-103 | makerow takes all unspent shadows of one row, in order, and keeps all others |
| FloodRows.NextRest | demo/spcam/sdfred20100528/mosaic/libsrc/paint_sub.c:282-303 | from one finished row to the next, one more row is done exactly, or fewer shadows are pending |
| FloodRows.HangingFill | demo/spcam/sdfred20100528/mosaic/libsrc/paint_sub.c:271-306 | on an image without pockets the fill never follows a null pointer, never marks a pixel that is not connected, and comes to its end with exactly the connected cells marked that were 0 |
| FloodComponents.OneRunHangs | demo/spcam/sdfred20100528/mosaic/libsrc/paint_sub.c:271-306 | when all passing pixels of each row lie side by side, there are no pockets, from any seed |
| FloodComponents.EnoughExists | demo/spcam/sdfred20100528/mosaic/libsrc/paint_sub.c:282-303 | some number of steps ends the fills of all components of such an image |
| FloodComponents.FillIsComponent | demo/spcam/sdfred20100528/mosaic/libsrc/paint_sub.c:271-306 | whatever the map holds, such a fill from the first pixel of a component marks exactly its cells that were 0 |
| FloodSteps.RecursForEver | demo/spcam/sdfred20100528/mosaic/libsrc/paint_sub.c:271-306 | if the lists of two steps are equal, the fill never ends |
| FloodCrash.NullPointer | demo/spcam/sdfred20100528/mosaic/libsrc/paint_sub.c:119 | a fill of a concrete image, from the first pixel of the scan, crashes in step 32 and not before |
| FloodLoop.NeverEnds | demo/spcam/sdfred20100528/mosaic/libsrc/paint_sub.c:271-306 | a fill of a concrete image never ends |
| FloodExample.WrongPixel | demo/spcam/sdfred20100528/mosaic/libsrc/paint_sub.c:115-129 | a fill of a concrete image, from the first pixel of the scan, ends and has marked a pixel that is not connected to the seed |
| FloodLists.OnOneList | demo/spcam/sdfred20100528/mosaic/libsrc/paint_sub.c:16-20 | no node is on two of the lists, or twice on one |
| FloodLists.Splice | demo/spcam/sdfred20100528/mosaic/libsrc/paint_sub.c:82-88 | linking a node in behind another gives the list with it inserted there |
| FloodLists.Filler.NewShadow | demo/spcam/sdfred20100528/mosaic/libsrc/paint_sub.c:33-53 | a free or new node goes to the head of the pending list; no other node in use changes |
| FloodLists.Filler.ClipShadow | demo/spcam/sdfred20100528/mosaic/libsrc/paint_sub.c:106-112 | the pieces left over on both sides become pending shadows |
| FloodLists.Filler.RemoveOverlap | demo/spcam/sdfred20100528/mosaic/libsrc/paint_sub.c:115-129 | child and shadow change as specified, in the linked lists; without a child the program is at its end |
| FloodLists.Filler.MakeShadows | demo/spcam/sdfred20100528/mosaic/libsrc/paint_sub.c:131-159 | the pointer walk along the row removes the specified overlaps |
| FloodLists.Filler.MakeRow | demo/spcam/sdfred20100528/mosaic/libsrc/paint_sub.c:55-103 | the pending list is sorted into the row, kept, or freed, node by node, each node on one list throughout |
| FloodLists.Filler.Visit | demo/spcam/sdfred20100528/mosaic/libsrc/paint_sub.c:161-213 | the column loops mark and cast as specified, and the count is the number of calls of setfunc |
| FloodLists.Filler.DoFlood | demo/spcam/sdfred20100528/mosaic/libsrc/paint_sub.c:271-306 | after any number of rounds the lists, the map and the reports are those of the specification, and it has crashed if the specification says so; the count returned is the number of reports, and it says whether the fill ended |
| FloodLists.OnlyBlankCells | demo/spcam/sdfred20100528/mosaic/libsrc/paint_sub.c:174-179 | cells that were not 0 keep their value, and a cell changes exactly where setfunc was called, once |
| Detection.Recorder.SetObjrecPix | demo/spcam/sdfred20100528/mosaic/starsel/detect_sub3.c:14-51 | the pixel joins the list and the box is widened |
| Detection.WidenedBounds | demo/spcam/sdfred20100528/mosaic/starsel/detect_sub3.c:26-29 | the two-sided test keeps an exact bounding box |
| Detection.ExtractPixlist | demo/spcam/sdfred20100528/mosaic/starsel/detect_sub3.c:78-120 | unless the fill crashes, the object has exact bounds, lists each of its pixels once, all above the threshold on cells that were 0, and exactly those cells get its number |
| Detection.LabelledGrows | demo/spcam/sdfred20100528/mosaic/starsel/detect_sub3.c:242-251 | one more object keeps labels and lists in agreement |
| Detection.EveryBrightPixelOnce | demo/spcam/sdfred20100528/mosaic/starsel/detect_sub3.c:238-287 | at the end each pixel above the threshold is on exactly one list, the one its label names, and every other pixel has label 0 |
| Detection.DetectNew3 | demo/spcam/sdfred20100528/mosaic/starsel/detect_sub3.c:207-297 | unless a fill crashes, labels and lists agree, no bright pixel is left, the edge list holds the objects that reach the last line and the other list those of the rest with enough pixels, in order; if one crashes, it is that of the first bright pixel not labelled before; if the fill from the first bright pixel crashes, so does the scan; without pockets nothing crashes and every object is a whole component |
| Detection.ScanIsFirst | demo/spcam/sdfred20100528/mosaic/starsel/detect_sub3.c:238-244 | the pixel from which an object is filled is the first of its component |
| Detection.ObjectIsComponent | demo/spcam/sdfred20100528/mosaic/starsel/detect_sub3.c:78-120 | on a frame without pockets the next fill does not crash and marks exactly the component of its pixel |
| Detection.ObjectsAreComponents | demo/spcam/sdfred20100528/mosaic/starsel/detect_sub3.c:238-287 | at the end of such a scan two bright pixels are on the same list if and only if they are connected |
| DetectionExamples.DetectorCrashes | demo/spcam/sdfred20100528/mosaic/starsel/detect_sub3.c:238-250 | a frame that the detector never gets through, whatever the map holds |
| DetectionExamples.DetectorMerges | demo/spcam/sdfred20100528/mosaic/starsel/detect_sub3.c:238-250 | a frame on which the first object has a pixel that is not connected with its first one |
| AuthNegotiation.GetEnabled | handson/ex2/lib/libgfarm/gfarm/auth_config.c:124-155 | a method is enabled if and only if the first matching line that mentions it enables it |
| AuthNegotiation.GetAvailable | handson/ex2/lib/libgfarm/gfarm/auth_config.c:157-183 | all methods but the obsolete one, and the GSI ones only if they are built in |
| AuthNegotiation.TableCovers | handson/ex2/lib/libgfarm/gfarm/auth_client.c:32-51 | every method that can be available is in the trial table before the sentinel |
| AuthNegotiation.TableInOrder | handson/ex2/lib/libgfarm/gfarm/auth_client.c:32-51 | the table is in the order of preference: shared secret, GSI_AUTH, GSI |
| AuthNegotiation.ReadMethods | handson/ex2/lib/libgfarm/gfarm/auth_client.c:185-191 | the server's set is that of the known method numbers in its list |
| AuthNegotiation.NeverAnImplementationError | handson/ex2/lib/libgfarm/gfarm/auth_client.c:208-216 | whatever the peer does, the outcome does not depend on the implementation error |
| AuthNegotiation.RequestsInTableOrder | handson/ex2/lib/libgfarm/gfarm/auth_client.c:193-231 | the requests are usable methods in table order, ended by the sentinel at most, and the method that succeeds is the last one asked for |
| AuthNegotiation.QuietNegotiation | handson/ex2/lib/libgfarm/gfarm/auth_client.c:193-231 | on a connection that answers everything, the usable methods are tried in table order up to the first that does not merely fail, whose outcome is the result; if all fail, the sentinel follows and the last failure decides |
| AuthNegotiation.AskTakesCourse | handson/ex2/lib/libgfarm/gfarm/auth_client.c:193-231 | whatever the peer does, usable methods are asked for in the order of preference, none is passed over, every one but the last merely fails, and the last one or the end of the table gives the result |
| AuthNegotiation.MostPreferredFirst | handson/ex2/lib/libgfarm/gfarm/auth_client.c:193-231 | the first request is for the most preferred of the methods that can be used |
| AuthNegotiation.GfarmAuthRequest | handson/ex2/lib/libgfarm/gfarm/auth_client.c:155-232 | no request unless a method is enabled, built in, and the server's list came; then the most preferred usable method first, the others in the order of preference as long as the one before merely fails, and at the end permission denied if the server offers nothing known, protocol not supported if nothing usable, else the last failure |
| AuthNegotiation.RequestState.ReceiveServerMethods | handson/ex2/lib/libgfarm/gfarm/auth_client.c:740-780 | the callback leaves the outcome still to come unchanged |
| AuthNegotiation.RequestState.LoopAskMethod | handson/ex2/lib/libgfarm/gfarm/auth_client.c:708-738 | so does the callback that skips unusable methods and sends a request |
| AuthNegotiation.RequestState.DispatchMethod | handson/ex2/lib/libgfarm/gfarm/auth_client.c:651-706 | so does the callback for the reply, whether it fails, gives up, or starts the method |
| AuthNegotiation.RequestState.NextMethod | handson/ex2/lib/libgfarm/gfarm/auth_client.c:618-639 | so does the choice between ending and asking for the next method |
| AuthNegotiation.RequestState.Run | handson/ex2/lib/libgfarm/gfarm/auth_client.c:592-780 | the callbacks end, with the outcome the state promised at its start |
| AuthNegotiation.GfarmAuthRequestMultiplexed | handson/ex2/lib/libgfarm/gfarm/auth_client.c:782-873 | the callback form keeps the same promise, with the same requests in the same order and the same result as the blocking form |

## Left out

- Nested `invoke` from a worker, several top-level tasks, exceptions in task bodies: one root, a fixed prerequisite graph, and `needed?` read once.
- Threads told to end are not part of `Waking` and `OperatorWaking`, nor are wake-ups without a signal. In `OperatorRuns` an idle worker may take any queued task; `OperatorWaking` has the workers that sleep and are woken.
- `HostQueue#clear`, `TaskQueue#stop`: `clear` does not reset the size. `SimpleQueue` would add easy members only.
- What `rand` draws is a parameter.
- The `nil` queue of a non-empty host list is proved to stay empty; task identity is the identity of a value.
- Rounding, overflow and NaN: reals are exact. Square root, logarithm, what a division by zero gives, and the match key are parameters, and so is what `skydet2b` makes of a merged histogram.
- Memory: allocation failures, growth of buffers by `realloc` and `free` are not modelled; growing buffers are sequences. A two- or three-dimensional buffer addressed by one index is an array of that dimension.
- RadixSort.MosRadixSort: the last cell of the static counter array is never cleared and would overflow after very many calls; its value is not used.
- Moments.Moment2D.AddRaw: orders that are kept must be at most 10, as far as the factorial table reaches, and the weight sum must not become zero. The wrappers that choose a weight function are not modelled.
- WeightedMedian.FloatWeightedMedian: on an exact half, a datum of weight zero at the half point may stand before the next value and is then averaged instead of it; the contract allows this and `WeightedMedian.AnswerIsUnique` needs positive weights.
- Quickselect.FloatMedian: at least one element is required, since the program reads before the array otherwise.
- FloodConnected.MarksConnected: the hypothesis is about the removals of the run, and the other direction does not hold, since what a removal adds may be cut away before it is visited. `FloodTouching.TouchingFill` and `FloodRows.HangingFill` need neither.
- FloodConnected.ConnectedExactly: an equivalence on the visits of the run; the condition on the image alone is that of `FloodRows.HangingFill`, which is enough and not necessary. That a fill which ends on some other image has marked every connected pixel is not proved, and no input is known on which it has not.
- FloodLists.Filler.DoFlood: the value written is not 0, as in every call in the repository. What `setfunc` does is replaced by the list of its calls.
- Detection.DetectNew3: the map starts all zero; without pockets `FloodComponents.EnoughExists` gives rounds that are enough; `setobjrec_pix` is applied to the reports of a fill after it, not during it; each fill is followed for a given number of rounds, at least two.
- The three parallel arrays of a pixel list are one sequence of entries.
- Triangles.MatchingTriangle: the key is any function of the two triangles; its formula is not written out.
- Triangles.MakeTriangleList: the numbers of a record are pinned for points that do not coincide and exact square roots; beyond that they depend on what a division by zero gives.
- `select_point` is not modelled, and the number of triples is not cut to 32 bits.
- AuthNegotiation.GfarmAuthRequestMultiplexed: timeouts, allocation and event-queue failures, which the blocking form does not know. Sets of method numbers stand for bit sets. The exchange of each method is its outcome.
- Connections, logging, files, FITS and WCS code, SVD and least-squares fits, `shellsort`, `id_reorder`, `normmed`.
