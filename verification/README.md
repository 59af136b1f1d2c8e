# Verified models of lmbench's hard parts

lmbench measures small things, so what it runs must be exactly what it means to
run: a pointer chain that misses a word, two results mixed in a pipe, or an
optimiser that loses a page would silently become a wrong number. This project
models the code on which those numbers rest and proves what it promises, for
every input, every random stream, every outcome of a measurement and every
interleaving of processes.

* **Pointer chains** (`lib_mem.c`, `lat_dram_page.c`, `measure` of `cache.c`).
  Memory is an array from byte offsets to byte offsets. Each builder is a method
  over that array; its chain is proved to be one single cycle in a stated order.
  A chain is described by slots (page, line, word) and the order in which they
  are visited. `Layout.dfy` proves that linked slots in any such order are one
  cycle of cells; the sweep, the groups of DRAM pages and the thrashing order
  each have their own successor and their own argument that it runs through
  their slots once.
* **The benchmp harness** (`lib_timing.c`, `bench.h`). One parent and any number
  of children over four pipes are a transition system; an inductive invariant
  gives the barriers, the exclusive result collection, the absence of deadlock
  and a bound on every run. The result lists are kept by an in-place insertion
  sort; the calibration loops are proved to converge on a linear clock.
* **The cache-page optimiser** (`cache.c`). Page swaps, a two-ended partition, a
  paired sort, back-out and bisection. Measurements may be anything: the
  benchmark is an object (`Benchmarks.Bench`) whose clock is an arbitrary function
  of the number of the run and of memory. It keeps a history of its runs: the
  buffer, its contents at the time, the chain, the last page on it and the time.
  What is said of latencies is said of the runs in that history.
* **Self-contained algorithms**: the directory tree of `lat_fs.c`, the least
  squares of `lib_stats.c`, processor placement of `lib_sched.c`.

`dafny verify dfyconfig.toml` checks everything.

## What turned out to be conditional

The code is modelled as it is. Where a property holds only sometimes, the exact
condition is a theorem.

* `words_initialize` yields distinct offsets exactly when its count is a power
  of two (`BitReversal.WordOrderDistinct`).
* The chain of `mem_initialize` always is one cycle, but it has `len` bytes'
  worth of words exactly when `len` is a whole number of lines and either fits
  one page or is a whole number of pages; the counter of visited lines is not
  advanced by a page jump (`MemLib.ExactWordCount`;
  `MemLib.OneLineTooMany` is a case where it is a line too long).
* `thrash_initialize` on a partial page always gives one cycle, but it reaches
  all lines exactly when their number n is a power of two; otherwise it has only
  the n - 2^b lines by which n exceeds the power of two below
  (`Thrashing.ThrashInitialize`, `Thrashing.AllLinesReached`): 32 of 96 lines for a
  page and a half (`Thrashing.PartialPages`).
* `BENCH_INNER` saves the iteration count it would use next, not the one it
  measured; when the two agree is `Calibration.ReportsMeasured`, a case where
  they do not is `Calibration.ReportsAnother`.
* `reverse_bits` spreads n processes over n processors exactly when n is a power
  of two or one less (`Scheduling.SpreadExact`); the comment at
  `src/lib_sched.c:104` only suspects that other counts do not work.
* The merged list stays within its allocated slots in every run exactly when
  `repetitions` is at least 1 or there are at most eleven children
  (`BenchmpCompletion.SlotsExactly`): with `repetitions` 0 every child still sends
  one sample, and twelve children send one more than there are slots
  (`BenchmpCompletion.TwelveChildren`).
* `search` must take the right half first (`Searching.LeftHalfFirst` shows what
  the other order breaks).
* `fixup_chunk` may return 0 without having backed anything out. For a chunk in
  front of the end of the list, a call that returns 0 leaves the list as it was
  if and only if some trial was kept, and then backed out
  (`ChunkFixing.UnchangedExactly`): the code backs out only if it has kept
  something, while it has moved the chunk to the end before.
  `ChunkFixing.AllTooSlow` is an oracle under which the list is left rearranged.
  For a chunk at the end of the list there is no move; the list then ends as the
  trials left it, with all slots in front of the chunk unchanged.

## Files

| file | content |
|---|---|
| `Arith.dfy`, `Reals.dfy` | division with remainder, products |
| `BitReversal.dfy` | bit reversal and the order of `words_initialize` |
| `Chains.dfy`, `Layout.dfy`, `GroupOrder.dfy` | single cycles, slots, orders |
| `Swaps.dfy`, `MemState.dfy`, `MemLib.dfy`, `LineTest.dfy`, `Thrash.dfy`, `Tlb.dfy` | `lib_mem.c` |
| `DramPage.dfy` | `lat_dram_page.c` |
| `Bench.dfy`, `Measure.dfy` | the benchmark and its history, `measure` |
| `CachePages.dfy`, `PageSort.dfy`, `FixupChunk.dfy`, `TestChunk.dfy`, `Search.dfy` | the optimiser of `cache.c` |
| `Results.dfy`, `Calibration.dfy` | sample lists and calibration |
| `Benchmp*.dfy` | the protocol, its invariant, its steps, its theorems, complete runs |
| `DirTree.dfy`, `LatFs.dfy` | `lat_fs.c` |
| `Regression.dfy`, `Sched.dfy` | `lib_stats.c`, `lib_sched.c` |

## Model

| member | source | states |
|---|---|---|
| BitReversal.RevInvolution | src/lib_mem.c:537-543 | reversing the low bits twice gives the number back, so the order is a bijection |
| BitReversal.RevPrefix | src/lib_mem.c:601-619 | the first 2^few entries of a longer reversed order are the multiples of 2^more |
| BitReversal.ReverseLoop | src/lib_mem.c:537-543 | the loop that sets one bit at a time computes the bit reversal |
| BitReversal.WordOrderCovers | src/lib_mem.c:525-546 | for a power of two every multiple of the scale below scale * max occurs, at the reversed index |
| BitReversal.WordOrderDistinct | src/lib_mem.c:525-546 | the offsets are pairwise different if and only if max is a power of two |
| Chains.CycleLap | src/cache.c:706-752 | following a cycle from its first cell is at cell n mod length after n steps, for any n: back at the start after exactly one lap |
| Layouts.Tables.AtInjective | src/lib_mem.c:322-348 | different (page, line, word) triples are different cells |
| Layouts.Sweep.LinkedIsCycle | src/lib_mem.c:322-348 | memory in which every slot leads to its sweep successor is one cycle over all slots |
| Layouts.Sweep.OrderPasses | src/lib_mem.c:322-348 | every slot of the sweep lies on that cycle |
| Layouts.Sweep.NextTime | src/lib_mem.c:322-348 | the successor is one tick later: all lines of a page, then the next page, then back for the next word |
| MemStates.WordsInitialize | src/lib_mem.c:525-546 | the array is the bit-reversed order for every max |
| MemStates.Permutation | src/lib_timing.c:1639-1662 | for every random stream the result rearranges 0, scale, 2*scale, ... |
| MemLib.BaseInitialize | src/lib_mem.c:128-175 | page, line and word counts, separate pages inside the buffer |
| MemLib.ThreadPages | src/lib_mem.c:322-348 | the nested loops link every slot to its sweep successor |
| MemLib.MemInitialize | src/lib_mem.c:291-355 | one single cycle in sweep order for any page permutation, started at its first word |
| MemLib.ExactWordCount | src/lib_mem.c:322-348 | the chain covers exactly len bytes if and only if len is whole lines and at most one page or whole pages |
| MemLib.OneLineTooMany | src/lib_mem.c:322-348 | six lines on pages of four lines give a chain of seven lines |
| MemLib.EveryWordVisited | src/lib_mem.c:291-355 | over whole pages every pointer-aligned byte of every page is on the chain |
| LineTests.LineInitialize | src/lib_mem.c:364-409 | one cycle over the first word of every line of every page, in sweep order |
| LineTests.LineTest | src/lib_mem.c:596-666 | the one run is on this memory while it is one cycle over the first pagesize/line table lines of all pages; afterwards memory is as before |
| LineTests.SampledLine | src/lib_mem.c:601-619 | every sampled line is a multiple of the candidate size |
| LineTests.MultipleSampled | src/lib_mem.c:601-619 | every multiple of the candidate size below the page size is sampled |
| LineTests.SampledCells | src/lib_mem.c:601-619 | a cell is sampled if and only if it is a multiple of the candidate size into some page |
| Thrashing.ThrashInitialize | src/lib_mem.c:206-273 | whole pages: one cycle in thrashing order; else one cycle over the touched lines; the benchmark starts on its first cell |
| Thrashing.AllLinesReached | src/lib_mem.c:235-247 | following the chain from its start reaches every line of a partial page if and only if their number is a power of two |
| Thrashing.PartialPages | src/lib_mem.c:235-247 | 32 of 96 lines are touched, and 1 of 3 |
| Thrashing.Thrash.Laps | src/lib_mem.c:248-270 | consecutive accesses are on different pages (npages >= 2), and npages steps later, cyclically, the same page is visited at the next word index |
| Thrashing.Thrash.LinkedIsCycle | src/lib_mem.c:248-270 | memory linked in thrashing order is one cycle of npages * nwords slots |
| TlbChains.ShuffleIsOneCycle | src/lib_mem.c:490-499 | for every random stream the shuffle is one cyclic permutation of slots 1 to npages - 1 that fixes the others |
| TlbChains.NoPageStays | src/lib_mem.c:490-499 | with three or more pages no page but page 0 keeps its slot |
| TlbChains.ShuffledByIndex | src/lib_mem.c:490-499 | the same slot permutation is applied whatever the pages are |
| TlbChains.TlbThread | src/lib_mem.c:490-507 | the pages are the shuffled ones, page 0 first, and the chain is one cycle that visits each page once |
| GroupOrders.Groups.LinkedIsCycle | src/lat_dram_page.c:101-166 | memory linked in group order is one cycle over every word |
| GroupOrders.Groups.NextTime | src/lat_dram_page.c:101-166 | the group successor is one tick later: inside a group an offset is visited on all its pages before the next offset |
| DramPages.Regroup | src/lat_dram_page.c:101-144 | all pages of the group but the last point ahead, the last one back to the first or out as before, no other page changes |
| DramPages.RegroupAll | src/lat_dram_page.c:149-169 | regrouping all groups turns a sweep into the group order |
| DramPages.DramPageInitialize | src/lat_dram_page.c:149-169 | on whole pages, for any group size, one cycle through every word remains; it starts at state->p[0], and offset 0, where the benchmark enters, is on it if the whole buffer is used |
| DramPages.EveryWordGrouped | src/lat_dram_page.c:101-166 | every pointer-aligned byte of every page is on the regrouped cycle |
| Measuring.MeasureChain | src/cache.c:416-473 | exactly one run, on this memory while it is one cycle over the lines of the first size bytes in page-list order; afterwards all links inside pages are restored |
| Measuring.MeasureCount | src/cache.c:409-446 | that cycle has size / line times words-per-line slots |
| Measuring.Measure | src/cache.c:401-479 | the same as a step on struct mem_state: the state stays measurable |
| Measuring.RearrangedMeasurable | src/cache.c:484-505 | any rearrangement of the page list leaves memory measurable |
| Measuring.ReadyToMeasure | src/cache.c:284-297 | mem_initialize on the whole scratch buffer establishes what measure needs |
| CachePages.MirrorTwice | src/cache.c:489-503 | the mirrored exchange undoes itself, even where chunk and tail overlap |
| CachePages.MirrorRemoves | src/cache.c:489-494 | during the measurement the first npages - chunk slots hold exactly the pages outside the chunk |
| CachePages.RemoveChunk | src/cache.c:482-506 | exactly one run, on the first npages - chunk slots of the mirrored list; the list is as before afterwards |
| PageSorting.PageSort | src/cache.c:758-774 | latencies ascend, every page keeps its latency, nothing outside moves |
| ChunkFixing.Partition | src/cache.c:607-622 | one run for every page; kept pages pass the bar, the others fail it, and each latency is the time of the last run that ended on its page; slots before the chunk stay |
| ChunkFixing.Replace | src/cache.c:639-667 | each latency stays the time of the last run that ended on its page, kept pages pass the bar, the rest ascends; it ends with all kept or after 2 * npages runs |
| ChunkFixing.FixupChunk | src/cache.c:567-704 | latencies are times of the last runs on their pages; the pages kept by the trials are those beyond the ones the first runs passed; the list ends as the trials left it if none was kept, as it was if the kept ones do not lower the baseline by more than 0.1%, else with the chunk moved back |
| ChunkFixing.UnchangedExactly | src/cache.c:596-703 | with a chunk in front of the end, a call that returns 0 leaves the list unchanged if and only if some trial was kept |
| ChunkFixing.KeptRun | src/cache.c:607-672 | a kept page has a run since the call began that passes the bar |
| ChunkFixing.AllTooSlow | src/cache.c:567-704 | if every run takes too long the call returns 0 and the list is rearranged |
| CachePages.ForwardMoves | src/cache.c:596-602 | after the forward move no edit of the tail gives the old list back |
| ChunkTesting.TestChunk | src/cache.c:508-556 | the page list stays a rearrangement; a change reported is an improvement to a time that was measured since, otherwise the baseline is as it was; the recursion ends |
| ChunkTesting.ProbeChunk | src/cache.c:528-542 | a chunk is followed up only if two runs without it, by the slower of them, beat both baselines |
| ChunkTesting.CollectSample | src/cache.c:373-399 | the latency reported was measured during the call; the page list stays a rearrangement and memory measurable |
| Searching.Search | src/cache.c:336-371 | through the bisection memory stays measurable, the page list a rearrangement and every sample measured; if the samples are positive, each consecutive measured pair has matching ratio and slope, ratio at least 0.98, and no step above 1.35 with a size left between; entries outside [left, right) are unchanged |
| Searching.Halves | src/cache.c:365-369 | the left half, taken second, leaves what the right half established |
| Searching.LeftHalfFirst | src/cache.c:365-369 | a curve on which the other order breaks a pair that was settled |
| Results.InsertedSorted | src/lib_timing.c:1228-1249 | inserting keeps the list from the largest to the smallest u / n and adds exactly the sample, unless its time is 0 |
| Results.MergeList | src/lib_timing.c:485-488 | merging a child's list adds exactly its nonzero samples |
| Results.ResultList.InsertSort | src/lib_timing.c:1228-1249 | the in-place shift computes the inserted list |
| BenchmpSteps.StepInv | src/lib_timing.c:333-500 | every step of every process keeps the protocol invariant |
| BenchmpTheorems.StartBarrier | src/lib_timing.c:366-402 | no child leaves warmup before all have sent ready, and the read after the select on start_signal finds a byte |
| BenchmpTheorems.StopBarrier | src/lib_timing.c:404-442 | no child takes or waits for a result byte while another still times or has not sent done |
| BenchmpTheorems.NoEarlyDeath | src/lib_timing.c:486-495 | no child exits before all results are merged, so the SIGCHLD error exit is never taken |
| BenchmpTheorems.OneWriter | src/lib_timing.c:444-489 | at most one child is between taking a result byte and the end of its message; buffer and pipe hold a prefix of that message |
| BenchmpTheorems.WholeMessages | src/lib_timing.c:458-484 | what the parent decodes is one whole message, for every split of reads and writes |
| BenchmpTheorems.MergedExactly | src/lib_timing.c:444-498 | merged_results is the multiset of all children's nonzero samples, sorted |
| BenchmpCompletion.SlotsExactly | src/lib_timing.c:333-500 | in every run merged_results stays within its slots if and only if repetitions >= 1 or there are at most 11 children |
| BenchmpCompletion.TwelveChildren | src/lib_timing.c:444-489 | twelve children without repetitions send twelve samples for eleven slots |
| BenchmpCompletion.Completes | src/lib_timing.c:333-500 | every run can be continued to one that ends with the parent finished and all children gone |
| BenchmpTheorems.StepProgress | src/lib_timing.c:366-495 | every step that changes anything lowers the work left |
| BenchmpTheorems.WorkBound | src/lib_timing.c:366-495 | the work left is never negative |
| BenchmpTheorems.BoundedRun | src/lib_timing.c:366-495 | no run has more changing steps than the work at its start |
| BenchmpTheorems.NoDeadlock | src/lib_timing.c:366-495 | every reachable unfinished state has a step that changes it |
| Calibration.RescaledReaches | src/bench.h:285-288 | one correction from a run above 150 microseconds reaches more than 1.1 times enough |
| Calibration.BenchInner | src/bench.h:271-299 | the loop ends within twelve runs, with at least 0.95 * enough or by giving up above 2^27 iterations |
| Calibration.ReportsMeasured | src/bench.h:283-299 | the saved count is the measured one if and only if the last run lies in the band or its correction rounds away |
| Calibration.ReportsAnother | src/bench.h:283-299 | 100 iterations of 1.25 times enough are saved as 89 |
| Calibration.CalibrateChild | src/lib_timing.c:710-739 | a single child reaches cooldown within repetitions + 10 intervals, with exactly the samples wanted, all long enough, or with none |
| Regression.LeastSquares | src/lib_stats.c:550-597 | any other line has a larger weighted squared error than the two-pass fit |
| Regression.Excess | src/lib_stats.c:550-597 | the error of any line is that of the fit plus a nonnegative excess, zero only for the fit itself |
| Regression.FitExists | src/lib_stats.c:570-588 | Stt is positive as soon as two x differ, so the divisions are defined |
| Regression.Regress | src/lib_stats.c:550-597 | the loops compute the unique minimiser, and chi2 is the minimum |
| DirTree.FilesCount | src/lat_fs.c:137-149 | how many file names the recursion records |
| DirTree.DirsCount | src/lat_fs.c:126-143 | how many directories it creates: the rounded-up quotients that setup_names adds up |
| DirTree.DirsDistinct | src/lat_fs.c:137-143 | no directory is created twice |
| DirTree.FilesDistinct | src/lat_fs.c:145-149 | no file name is used twice |
| DirTree.DirsParentsFirst | src/lat_fs.c:137-143 | a directory is created after the one it lies in |
| DirTree.FilesInDirs | src/lat_fs.c:137-149 | every file lies in a directory that was created |
| DirTree.FilesShape | src/lat_fs.c:137-149 | all files are on one level and entry numbers stay below max |
| DirTree.CeilTwice | src/lat_fs.c:164-171 | rounding up level by level is rounding up at once |
| LatFs.CountDirs | src/lat_fs.c:164-171 | the counting loop finds the least depth that holds n files and the directories on all levels |
| LatFs.SetupNamesRecurse | src/lat_fs.c:125-150 | the recursion appends exactly the planned directories and names, every mkdir succeeds |
| LatFs.SetupNames | src/lat_fs.c:152-205 | the consistency check never fails: both arrays are filled with distinct paths, and exactly dirs[] exists on disk |
| LatFs.CleanupNames | src/lat_fs.c:207-229 | in reverse order every rmdir finds its directory empty, and none is left |
| Scheduling.ReverseBits | src/lib_sched.c:106-122 | the loops reverse the bits a processor number needs |
| Scheduling.SpreadExact | src/lib_sched.c:100-122 | n processes go to n different processors if and only if n or n + 1 is a power of two |
| Scheduling.Scheduler.Pin | src/lib_sched.c:178-240 | the mask has exactly one bit, that of the allowed processor number cpu mod count |
| Scheduling.Scheduler.Handle | src/lib_sched.c:45-98 | each policy pins to the processor it asks for |
| Scheduling.ChosenApart | src/lib_sched.c:218-231 | different positions among the allowed processors give different masks |
| Scheduling.UniqueApart | src/lib_sched.c:72-97 | UNIQUE and UNIQUE_SPREAD are collision-free |
| Scheduling.UniqueSpreadClash | src/lib_sched.c:79-88 | for any other number of processors two of the first n processes collide |

## Left out

- Sockets, RPC, HTTP, file and memory-map benchmarks, `lmdd.c`, option parsing, printing and the unrolled benchmark kernels: they would add only easy members.
- Machine integers: all numbers are unbounded. The models speak about sizes and counts that do not overflow (sizes below 2^31), as on the ARMv7 QNX target of `build.sh:3`, where `int`, `long`, `size_t` and pointers have four bytes and the copies with `sizeof(int)` in `fixup_chunk` cover the whole list.
- Floating point: latencies, ratios and sums are exact reals, and u / n is compared by cross-multiplication. `sig_a` and `sig_b`, which need square roots, are not modelled.
- Allocation failure, the address alignment that `base_initialize` adds to the buffer (offsets are counted from `state->base`), and calls with iterations != 0, which return at once.
- State of `lib_mem.c` beyond the first chain: the start pointers `state->p[k]` for width > 1 are approximate by design. `state->p[0]` is the result of the builders.
- The page colours, clocks and caches themselves: `rand`, `measure` and the benchmark functions are arbitrary; only `Calibration.dfy` assumes a clock that is linear within one microsecond, without the overheads that a fixed cost per run would subtract.
- ThrashInitialize: asks for the sizes of MemInitialize only for whole pages.
- ThreadPages: states nothing about the start pointers state->p[k] for k > 0, as said above.
- MemInitialize: Geometry asks that lines are a power of two of pointers and pages a power of two of lines, which is what makes the tables of `words_initialize` cover a page (`BitReversal.WordOrderDistinct` shows that other sizes repeat offsets).
- LineInitialize: asks for the same sizes as MemInitialize, for the same reason.
- DramPageInitialize: states the result for whole pages and group >= 1; on a partial last page the regrouped tail would read words that the chain never set.
- Measure: one run stands for the repetitions of which the median is taken. SizeOk excludes a partial page of less than one line, for which the code indexes before the line table.
- FixupChunk: where chunk and tail overlap the forward move is the exchanges it makes one by one, not the exchange of two blocks. Chunks have at most 20 pages, as test_chunk ensures.
- PageSort: for n = 0 the unsigned bound n - 1 wraps around; the loop then runs 2^32 - 1 times without effect, as modelled.
- TestChunk: states nothing about how often a chunk is followed up, which depends on the measurements.
- Search: asks for left < right; for one single size the code divides by zero. For samples that are not positive it states nothing about ratios and slopes.
- The failure paths of `benchmp`: SIGTERM, SIGALRM, death of the parent, failing fork, read or write.
- Pipes of `benchmp`: writes of one byte per child are taken to be atomic (parallel <= PIPE_BUF), the three signal pipes never fill, and the response pipe has any positive capacity. The bytes of a result message are tags (child, position) that decode to the child's list when they form its message.
- BenchmpTheorems: the protocol theorems are about parallel > 1. A single child calibrates as in `Calibration.CalibrateChild`.
- SetupNames: max >= 2, since the counting loop does not end for max = 1; the names are paths below the directory that tempnam picks. In CleanupNames the files have been removed, as the benchmark does before.
- UniqueApart: the processors that sched_ncpus reports are all allowed. Words of the mask have 32 bits and `sched_setaffinity` itself is not part of the model; the interfaces of other systems are left out.
