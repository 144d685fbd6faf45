# Verified models of five stateful programs

The Dafny modules here model the parts of the repository in which state changes step by
step, and prove what those parts guarantee on every input, every run and every interleaving.

* **Traffic monitor** (`course_work/code/core_module.c`): the kernel module counts packets per
  source in a 64-row table, folds the table into a summary row when a period of ten seconds is
  over, keeps the last 512 rows, and compares each new row with the averages of the rows
  before it. `TrafficTypes`, `FirstLayer`, `Detector`, `Window`, `Conservation`, `Clock`,
  `Traces`, `RealTraffic`, `Periods` and `Cursor` hold the specification and its theorems; `TrafficModule.CoreModule` is the module
  itself, a class that changes its two arrays in place and is proved against the specification.
  Unsigned 32-bit and 64-bit wrap-around is explicit. Every call takes its clock readings as arguments.
* **Producers and consumers** (`sem_05/lab_04/pc`), module `ProducerConsumer`, over the System V
  semaphore operation of module `Semaphores` (`semop()`, System Interfaces volume of IEEE Std
  1003.1-2017). The numbers of processes and rounds and the capacity are parameters; `SOURCE`
  holds the values in the code.
* **Readers and writers over semaphores** (`sem_05/lab_04/rw`), module `ReadersWriters`.
* **Readers and writers over events** (`sem_05/lab_05/main.c`), module `EventReadersWriters`.
* **Matrices** (`sem_05/lab_02/p_2.c`, `sem_06/lab_03/p_1/main.c`), modules `Spiral` and
  `TriangleSwap`, for every size.

The three concurrent programs are transition systems (module `Schedules`). `Step` is one atomic action
of one process, `Run` executes a schedule, and a lemma about `Run` or `Reachable` is about all interleavings.
An increment of shared memory is a load step and a store step, so an update can get lost unless a
semaphore prevents it. In each of these modules a class `Machine` holds the shared state in fields;
its methods change the fields and are proved to take exactly the steps of the transition system. Lemmas `CanMove` and `OrderIff` of each module
say when a process is kept from moving and which interleavings of rounds occur.

Where a program does not have a property one would expect of it, the model states exactly when
it has it: `CompletesIffBalanced` (no hanging), `TerminatesIff`, `EndlessIff` and `StarvationIff` (no endless runs, no
starved writers), `ExactCountIff`, `FinalValues` and `OverlapIff` (no lost increments, which values result,
no overlap), `SameVerdictsIff` and `RealVerdictsIff` (verdicts as in unbounded arithmetic), `SteadyTraffic` and `SteadyForever` (no
alarm on steady traffic), `ConservedIff` and `EveryPacketCounted` (nothing lost from the counts) and `NoGapIff`
(no skipped rows). `FalseAlarm`, `SteadyFalseAlarm`, `GapSession`, `SafePacketsIsSharp`, `LostPacket`, `LostUpdate`,
`StarvingRun` and `LongRun` give inputs or runs on which the property fails.

`dafny verify dfyconfig.toml` checks the whole project.

## Model

| member | source | states |
|---|---|---|
| `Semaphores.SemopPair` | sem_05/lab_04/pc/src/producer.c:27-32 | `semop` with two operations on different semaphores performs both or blocks and changes nothing |
| `Semaphores.SemopMeaning` | sem_05/lab_04/rw/src/writer.c:10-32 | `semop` succeeds exactly when each operation finds its semaphore ready after the operations before it, and then adds to every semaphore the sum of the operations on it |
| `Semaphores.SemaphoreSet.Operate` | sem_05/lab_04/pc/src/producer.c:27-32 | performing the operations one by one and taking them back when one has to wait is all or nothing: the call blocks with the set unchanged, or every semaphore has changed by its sum |
| `Schedules.RunKeeps` | sem_05/lab_04/pc/main.c:87-97 | what every step of every process keeps holds after every schedule |
| `Schedules.RunAppend` | sem_05/lab_04/pc/main.c:87-97 | running one schedule after another is running the two in sequence, blocked if either is |
| `Schedules.ReachableKeeps` | sem_05/lab_04/pc/main.c:87-97 | what holds at the start and is kept by every step holds in every reachable state |
| `ProducerConsumer.SemopTables` | sem_05/lab_04/pc/src/producer.c:11-20 | when each of the four operation arrays blocks and what it changes |
| `ProducerConsumer.ProducerStepInv` | sem_05/lab_04/pc/src/producer.c:22-49 | every step of a producer keeps the invariant that ties the semaphores, pointers and printed text to the phases of all processes |
| `ProducerConsumer.ConsumerStepInv` | sem_05/lab_04/pc/src/consumer.c:34-62 | every step of a consumer keeps the same invariant |
| `ProducerConsumer.Safety` | sem_05/lab_04/pc/src/buffer.c:15-31 | in every reachable state exactly one of "semaphore 1 is 1" and "one process is in its critical section" holds, the pointers differ by 0 to N and stay inside the text, and consumed <= written <= text as prefixes |
| `ProducerConsumer.ItemsInOrder` | sem_05/lab_04/pc/src/consumer.c:46-53 | the k-th item consumed is the k-th character printed by a producer and the k-th of the text |
| `ProducerConsumer.StepTaken` | sem_05/lab_04/pc/src/producer.c:61-63 | every step advances a measure by exactly one |
| `ProducerConsumer.CanMove` | sem_05/lab_04/pc/src/producer.c:27-27 | in every reachable state a process can move unless it is between rounds and has none left, somebody is in a critical section, or the buffer is full (a producer) or empty (a consumer) |
| `ProducerConsumer.OrderIff` | sem_05/lab_04/pc/src/producer.c:22-63 | whole rounds can be run in a given order of processes if and only if each has that many rounds and the items in the buffer always number from 0 to N; the state in between follows from the counts |
| `ProducerConsumer.EveryOrder` | sem_05/lab_04/pc/main.c:87-97 | with balanced parameters every order of the productions together with every order of the consumptions is that of some complete run |
| `ProducerConsumer.RunLength` | sem_05/lab_04/pc/main.c:87-112 | no run has more than 5(P*a + C*b) steps, and a run is complete iff it has that many |
| `ProducerConsumer.NotStuck` | sem_05/lab_04/pc/main.c:87-112 | with balanced parameters an unfinished state always has a process that can move |
| `ProducerConsumer.CompletesIffBalanced` | sem_05/lab_04/pc/main.c:65-97 | every state in which nobody can move is a finished one if and only if C*b <= P*a <= C*b + N and, when anything is made, N >= 1 |
| `ProducerConsumer.MaximalRun` | sem_05/lab_04/pc/main.c:87-112 | every reachable state can be run on until nobody can move |
| `ProducerConsumer.FinalState` | sem_05/lab_04/pc/main.c:63-97 | the semaphores, pointers and texts a completed run leaves, for all parameters |
| `ProducerConsumer.BalancedRun` | sem_05/lab_04/pc/main.c:63-112 | with P*a = C*b and N >= 1 every maximal run ends complete with semaphores 0, 1, N, both pointers at P*a and both sides having printed the first P*a characters |
| `ProducerConsumer.SourceProgram` | sem_05/lab_04/pc/main.c:63-97 | the program as written: 240 steps, semaphores 0, 1, 5, both sides print the first 24 letters |
| `ProducerConsumer.Machine.constructor` | sem_05/lab_04/pc/src/buffer.c:4-13 | the initial state |
| `ProducerConsumer.Machine.AdvanceProducer` | sem_05/lab_04/pc/src/producer.c:22-49 | the fields change exactly as one producer step of the transition system |
| `ProducerConsumer.Machine.AdvanceConsumer` | sem_05/lab_04/pc/src/consumer.c:34-62 | the fields change exactly as one consumer step of the transition system |
| `ProducerConsumer.Machine.Advance` | sem_05/lab_04/pc/main.c:87-112 | one scheduled step keeps the state reachable and advances the measure by one |
| `ProducerConsumer.Machine.RunAll` | sem_05/lab_04/pc/main.c:87-112 | under an arbitrary scheduler the balanced program terminates with all processes done and the stated final state |
| `ReadersWriters.SemopTables` | sem_05/lab_04/rw/src/writer.c:10-18 | when each of the four operation arrays blocks (wait-for-zero operations included) and what it changes |
| `ReadersWriters.WriterStepInv` | sem_05/lab_04/rw/src/writer.c:22-45 | every step of a writer keeps the invariant, among it counter + writers past the guard <= L - 1 + W |
| `ReadersWriters.ReaderStepInv` | sem_05/lab_04/rw/src/reader.c:22-43 | every step of a reader keeps the invariant |
| `ReadersWriters.Exclusion` | sem_05/lab_04/rw/src/writer.c:10-18 | semaphore 0 counts the active writers and is at most 1, semaphore 1 counts the active readers, and a writer is active alone |
| `ReadersWriters.PrintedInOrder` | sem_05/lab_04/rw/src/writer.c:34-36 | the writers of any run print 1, 2, 3, ... in order, and each reader prints the number of writes before it |
| `ReadersWriters.OvershootBound` | sem_05/lab_04/rw/src/writer.c:57-58 | once all writers have exited the counter lies in L..L+W-1 and exactly the numbers up to it have been printed |
| `ReadersWriters.FinalCounters` | sem_05/lab_04/rw/src/writer.c:57-58 | a complete run can end with a counter v if and only if v lies in that range (both ends are reached) |
| `ReadersWriters.Attained` | sem_05/lab_04/rw/src/writer.c:57-58 | a complete run for each counter in the range, built step by step |
| `ReadersWriters.SourceCounters` | sem_05/lab_04/rw/main.c:32-58 | for 3 writers, 5 readers and limit 20 the possible final counters are exactly 20, 21 and 22 |
| `ReadersWriters.NotStuck` | sem_05/lab_04/rw/src/reader.c:55-58 | no reachable state has every unfinished process waiting for a semaphore |
| `ReadersWriters.CanMove` | sem_05/lab_04/rw/src/writer.c:27-27 | in every reachable state a process that has not exited can move unless it is a writer at its semop while somebody is active, or a reader at its semop while a writer is |
| `ReadersWriters.OrderIff` | sem_05/lab_04/rw/src/writer.c:22-58 | whole rounds can be run in every order of processes as long as the counter is below the limit when a round begins, and print what the order says |
| `ReadersWriters.CanFinish` | sem_05/lab_04/rw/main.c:54-73 | from every reachable state some run lets all processes exit |
| `ReadersWriters.RunLength` | sem_05/lab_04/rw/src/reader.c:55-56 | the length of a run is bounded by how often readers find the counter below the limit |
| `ReadersWriters.TerminatesIff` | sem_05/lab_04/rw/src/reader.c:55-58 | the lengths of all runs are bounded if and only if there are no readers or the limit is 0 |
| `ReadersWriters.EndlessIff` | sem_05/lab_04/rw/src/reader.c:55-58 | an infinite run exists if and only if there are readers and a positive limit |
| `ReadersWriters.LongRun` | sem_05/lab_04/rw/src/reader.c:55-56 | with a reader and a positive limit there are runs of any length in which the counter stays 0 |
| `ReadersWriters.StarvationIff` | sem_05/lab_04/rw/src/reader.c:10-20 | an infinite run exists in which all writers have passed their guard and in every state cannot start, if and only if there are two readers and a positive limit (given a writer) |
| `ReadersWriters.StarvingRun` | sem_05/lab_04/rw/src/reader.c:22-43 | the periodic schedule of two readers that overlap in turn keeps all writers waiting |
| `ReadersWriters.Machine.constructor` | sem_05/lab_04/rw/main.c:32-58 | counter 0, both semaphores 0 |
| `ReadersWriters.Machine.AdvanceWriter` | sem_05/lab_04/rw/src/writer.c:22-58 | the fields change exactly as one writer step of the transition system |
| `ReadersWriters.Machine.AdvanceReader` | sem_05/lab_04/rw/src/reader.c:22-58 | the fields change exactly as one reader step of the transition system |
| `ReadersWriters.Machine.Execute` | sem_05/lab_04/rw/main.c:32-58 | executing any schedule in place is the run of the transition system, and the printed log is sequential |
| `EventReadersWriters.ReaderStepInv` | sem_05/lab_05/main.c:147-164 | every step of a reader keeps the invariant: the counter is the readers between increment and decrement, a reset event has a reader that will signal it |
| `EventReadersWriters.NotStuck` | sem_05/lab_05/main.c:101-164 | under the invariant an unfinished state always has a thread that can move |
| `EventReadersWriters.Finish` | sem_05/lab_05/main.c:101-164 | every reachable state can be run to completion, and the shared variable stays once the writers are done |
| `EventReadersWriters.Completes` | sem_05/lab_05/main.c:101-164 | when nobody can move all threads have finished, both events are signalled and the counter is 0 |
| `EventReadersWriters.RunLength` | sem_05/lab_05/main.c:101-145 | no interleaving is longer than 4 steps for each round of a writer and 8 for each round of a reader |
| `EventReadersWriters.SourceProgram` | sem_05/lab_05/main.c:37-164 | the program as written: at most 416 steps, complete when nobody can move, 2 to 24 increments counted |
| `EventReadersWriters.SharedBound` | sem_05/lab_05/main.c:113-113 | a complete run counts at most the increments made, and at least 2 of them when there are two writers with two rounds |
| `EventReadersWriters.LostUpdate` | sem_05/lab_05/main.c:120-127 | with two writers a complete run that ends with the least value |
| `EventReadersWriters.FinalValues` | sem_05/lab_05/main.c:106-128 | a complete run can end with the shared variable at v if and only if v lies between the least value (1 or 2 for two or more writers) and the number of increments made |
| `EventReadersWriters.SourceValues` | sem_05/lab_05/main.c:106-128 | for 3 writers with 8 rounds the possible final values are exactly 2 to 24 |
| `EventReadersWriters.Attained` | sem_05/lab_05/main.c:106-128 | a complete run for each of these values, built from undisturbed rounds and two overlapping stores |
| `EventReadersWriters.ExactCountIff` | sem_05/lab_05/main.c:113-127 | every complete run counts one increment for each writer round if and only if there is at most one writer or no round |
| `EventReadersWriters.OverlapIff` | sem_05/lab_05/main.c:120-154 | a writer can be writing while a reader is counted as active if and only if both sides have work to do |
| `EventReadersWriters.CanMove` | sem_05/lab_05/main.c:120-151 | in every reachable state a thread with rounds left can move unless it waits for can_write, or for can_read, and that event is reset |
| `EventReadersWriters.ResetHolds` | sem_05/lab_05/main.c:122-151 | over every schedule whose states have can_write reset no writer begins a round and no reader passes its second wait |
| `EventReadersWriters.WritersHeld` | sem_05/lab_05/main.c:113-128 | so each writer takes at most three more steps until can_write is set, and none if it is between rounds |
| `EventReadersWriters.ReadersLetThrough` | sem_05/lab_05/main.c:48-48 | can_read, reset by the wait it lets through, is passed at most once more often than it has been signalled |
| `EventReadersWriters.CountedHolds` | sem_05/lab_05/main.c:158-163 | while a reader is counted no other finds the counter at zero and goes on to set can_write |
| `EventReadersWriters.EventEffects` | sem_05/lab_05/main.c:125-163 | which calls set and reset the two events and change the counter, and when can_write is set |
| `EventReadersWriters.OrderIff` | sem_05/lab_05/main.c:101-164 | whole rounds can be run in every order in which each thread has that many, both events being signalled and every increment counted after each |
| `EventReadersWriters.ReaderRound` | sem_05/lab_05/main.c:141-163 | a reader alone takes eight steps and leaves the events and the counter as they were |
| `EventReadersWriters.Machine.constructor` | sem_05/lab_05/main.c:37-56 | both events signalled, counters 0 |
| `EventReadersWriters.Machine.AdvanceWriter` | sem_05/lab_05/main.c:106-128 | the fields change exactly as one writer step of the transition system |
| `EventReadersWriters.Machine.AdvanceReader` | sem_05/lab_05/main.c:136-164 | the fields change exactly as one reader step of the transition system |
| `EventReadersWriters.Machine.Advance` | sem_05/lab_05/main.c:101-164 | one scheduled step keeps the state reachable and advances the bounded measure |
| `EventReadersWriters.Machine.RunAll` | sem_05/lab_05/main.c:101-164 | under an arbitrary scheduler the program terminates with all threads done, both events signalled and the counter 0 |
| `Spiral.FillTop` | sem_05/lab_02/p_2.c:20-24 | the top side of a ring is numbered left to right, no other cell changes |
| `Spiral.FillRight` | sem_05/lab_02/p_2.c:26-30 | the right side is numbered downwards, no other cell changes |
| `Spiral.FillBottom` | sem_05/lab_02/p_2.c:32-36 | the bottom side is numbered right to left, no other cell changes |
| `Spiral.FillLeft` | sem_05/lab_02/p_2.c:38-42 | the left side is numbered upwards, no other cell changes |
| `Spiral.FillOneCircle` | sem_05/lab_02/p_2.c:18-43 | exactly the cells of one ring are written, with consecutive numbers clockwise along the ring |
| `Spiral.Fill` | sem_05/lab_02/p_2.c:45-50 | the n x n corner holds the closed form for every n >= 1, every other cell is unchanged, no subtraction goes below zero |
| `Spiral.RingStart` | sem_05/lab_02/p_2.c:45-50 | the rings before ring k hold 4k(n-k) cells |
| `Spiral.CellsSquare` | sem_05/lab_02/p_2.c:45-50 | all rings together hold n*n cells |
| `Spiral.EachNumberOnce` | sem_05/lab_02/p_2.c:45-50 | a number is in the filled matrix iff it is one of 1..n*n, and then in exactly one cell |
| `Spiral.FillIsBijection` | sem_05/lab_02/p_2.c:45-50 | the number of a cell and the cell of a number are inverse to each other |
| `Spiral.FillIsWalk` | sem_05/lab_02/p_2.c:1-43 | the number v is where a walk is that starts in the corner and turns right only when the cell ahead is taken or outside; consecutive numbers are in adjacent cells |
| `TriangleSwap.Swap` | sem_06/lab_03/p_1/main.c:26-31 | two cells exchange their entries, the others keep theirs |
| `TriangleSwap.SwapRow` | sem_06/lab_03/p_1/main.c:36-38 | one pass of the inner loop exchanges the cells i..n-1-i of row i with the mirror row and nothing else |
| `TriangleSwap.SwapUpperLowerTriangle` | sem_06/lab_03/p_1/main.c:33-39 | a cell receives the entry of its mirror image if and only if it lies no further from the middle column than from the middle row; nothing else changes, no unsigned subtraction wraps |
| `TriangleSwap.PartnerInvolution` | sem_06/lab_03/p_1/main.c:35-38 | the partner of the partner is the cell itself, and the cells that move are those no further from the middle column than from the middle row, outside that row |
| `TriangleSwap.PartnerGeometry` | sem_06/lab_03/p_1/main.c:37-38 | which cell every entry comes from, by its distances from the middle row and column, both diagonals included |
| `TriangleSwap.SwapTwice` | sem_06/lab_03/p_1/main.c:33-39 | running the exchange twice leaves every cell of the matrix as it was |
| `TriangleSwap.SwappedTwice` | sem_06/lab_03/p_1/main.c:33-39 | the exchange of any entries is its own inverse |
| `TriangleSwap.SameEntries` | sem_06/lab_03/p_1/main.c:33-39 | every value occurs as often after the exchange as before |
| `FirstLayer.TableIsMapFold` | course_work/code/core_module.c:288-322 | the table holds the first at most 64 distinct sources in order of arrival, each with the counts, bytes, TCP and SYN packets of all its packets modulo 2^32; later sources change nothing |
| `FirstLayer.TableSums` | course_work/code/core_module.c:244-252 | the four column sums are those of the admitted packets modulo 2^32 |
| `FirstLayer.AllAdmitted` | course_work/code/core_module.c:304-304 | with at most 64 sources every packet is admitted |
| `Conservation.AllAdmittedIff` | course_work/code/core_module.c:304-304 | every packet of a period is counted if and only if it has at most 64 sources |
| `Detector.FlaggedIff` | course_work/code/core_module.c:150-222 | a new row is flagged iff some field exceeds its limit over the rows before it |
| `Detector.NamedFirst` | course_work/code/core_module.c:150-222 | the property named is the first such field in the order of the tests |
| `Detector.VerdictInOrder` | course_work/code/core_module.c:150-222 | the nine tests in the order of the source, in 32-bit and in unbounded arithmetic |
| `Detector.FieldTest` | course_work/code/core_module.c:126-216 | what each test compares: the record field itself with floor(avg*130/100) of its own column plus its own start value, in numbers, with and without wrap-around |
| `Detector.LimitWraps` | course_work/code/core_module.c:126-152 | wrap-around can only lower a limit, and a limit is exact iff neither the sum nor the product with 130 wraps |
| `Detector.NeverMissed` | course_work/code/core_module.c:126-222 | whatever an unbounded detector flags, the code flags too, wrap-around or not |
| `Detector.SameVerdict` | course_work/code/core_module.c:126-222 | without wrap-around the verdict is that of the unbounded detector |
| `Detector.SameVerdictsIff` | course_work/code/core_module.c:126-222 | over a given history the verdicts agree on all nine-field rows if and only if in no field the sum or the product wraps |
| `RealTraffic.RealVerdictsIff` | course_work/code/core_module.c:126-277 | after rows of periods that did not overflow, the verdicts agree on every period of packets the hook can pass on if and only if in no field the sum or the product wraps |
| `RealTraffic.HistoryPlausible` | course_work/code/core_module.c:244-271 | the rows of any history of such periods meet the condition of that result: parts are at most wholes, bytes at most 65535 per packet |
| `Detector.SafeRows` | course_work/code/core_module.c:126-222 | if all fields of at most 511 rows are at most 8405024 nothing wraps and the verdicts agree |
| `Detector.ExactVerdict` | course_work/code/core_module.c:109-223 | when nothing wraps a row is flagged iff some field exceeds floor(avg*130/100) + initial in exact arithmetic, and the property is the first such field |
| `Detector.QuietRow` | course_work/code/core_module.c:138-222 | without wrap-around a row at most the average of its history in every field is not flagged |
| `Detector.RepeatedRow` | course_work/code/core_module.c:109-223 | a row equal to the h rows before it is left unflagged if and only if in no field h times the value or 130 times the value reaches 2^32 |
| `Detector.FullHistory` | course_work/code/core_module.c:109-223 | for a full history of 511 rows: if and only if no field exceeds 8405024 |
| `Window.WindowIsHistory` | course_work/code/core_module.c:225-286 | after any trace the live table is that of the open period and the window is the last 512 of all period summaries in order, each with the verdict given when it was written |
| `Window.RowAt` | course_work/code/core_module.c:234-277 | row k of the history is the summary of period k judged against the 511 rows before it |
| `Window.VerdictsStay` | course_work/code/core_module.c:266-277 | no later packet changes a row or its verdict |
| `Window.HistoryVerdict` | course_work/code/core_module.c:109-223 | a row whose own history does not wrap carries the verdict of unbounded arithmetic over the rows before it, whatever comes later |
| `Window.WindowCoherent` | course_work/code/core_module.c:150-276 | in every row a reader can ever see flag is 1 iff the type is INCREASE iff the property is defined, and the type is never FALL |
| `Window.SteadyTraffic` | course_work/code/core_module.c:109-277 | n periods with equal summaries are left unflagged if and only if in no field min(n-1, 511) times the value or 130 times the value reaches 2^32 |
| `Window.SteadyForever` | course_work/code/core_module.c:109-277 | the same packets in every period are never flagged, however long it lasts, if and only if no field of their summary exceeds 8405024 |
| `Traces.Realised` | course_work/code/core_module.c:280-323 | any non-empty periods are the history of a trace under one non-decreasing clock |
| `Traces.FalseAlarm` | course_work/code/core_module.c:126-222 | a trace (505 packets of 65535 bytes, then 17) after which the window holds a row flagged only because of wrap-around |
| `Traces.SteadyFalseAlarm` | course_work/code/core_module.c:126-222 | a trace of equal periods of 129 packets of 65535 bytes of which one is flagged |
| `Conservation.SummaryCounts` | course_work/code/core_module.c:244-271 | a summary counts the admitted packets, bytes, TCP and SYN packets of its period modulo 2^32, its distinct sources up to 64, and their averages |
| `Conservation.SummaryMaxima` | course_work/code/core_module.c:247-248 | the two maxima are the largest amounts of packets and bytes, modulo 2^32, of one admitted source |
| `Conservation.SummaryBounds` | course_work/code/core_module.c:244-264 | 1..64 sources; unless the packets (or the bytes) of the period reach 2^32, avg <= max <= total <= unique*max and avg*unique <= total < (avg+1)*unique |
| `Conservation.SummaryOrder` | course_work/code/core_module.c:340-347 | unless the packets reach 2^32: syn <= tcp <= packets and bytes <= 65535*packets (16-bit Total Length, section 3.1 of RFC 791) |
| `Conservation.FewPacketsFit` | course_work/code/core_module.c:340-347 | with at most 65537 packets in a period nothing reaches 2^32 |
| `Conservation.SafePacketsIsSharp` | course_work/code/core_module.c:246-246 | one packet more, all of 65535 bytes, and the sum of the lengths wraps |
| `Conservation.CutKeepsPackets` | course_work/code/core_module.c:282-286 | the periods and the open period together hold the packets of the trace, each once and in order |
| `Periods.PeriodBounds` | course_work/code/core_module.c:282-286 | under one clock a period begins with the first call later than 10000000000 ns (on the clock, or after the start of the period before), its other calls come no later than that after its start, its packets are those in between, and its stamp is the second reading of the call that closed it in seconds |
| `Conservation.Conserved` | course_work/code/core_module.c:244-322 | over any trace the rows ever written plus the live table count the admitted packets in each of the four columns, modulo 2^32 |
| `Conservation.ConservedIff` | course_work/code/core_module.c:244-322 | the counts never exceed those of the admitted packets, and equal them if and only if in no period the sum reaches 2^32 |
| `Conservation.ConservedExactly` | course_work/code/core_module.c:244-322 | with at most 64 sources in every period the rows ever written plus the live table count all packets in a column if and only if in no period its sum reaches 2^32 |
| `Conservation.EveryPacketCounted` | course_work/code/core_module.c:244-322 | the packet column sums to the number of calls if and only if no period has more than 64 sources or 2^32 packets |
| `RealTraffic.LostPacket` | course_work/code/core_module.c:304-304 | a trace with a period of 65 sources in which a packet is not counted |
| `Clock.CutSpaced` | course_work/code/core_module.c:257-286 | under one non-decreasing clock the stamps of the periods are positive and at least 10 s apart |
| `Clock.WindowSpaced` | course_work/code/core_module.c:257-286 | so are the time stamps of the rows in the window |
| `Clock.ScanMeaning` | course_work/code/core_module.c:446-454 | with positive stamps the sentinel 0 hides nothing: the count is the number of flagged rows, the two times are those of the earliest and the latest |
| `Clock.StatsSpan` | course_work/code/core_module.c:456-462 | the span never underflows and is at least 10(n-1) |
| `Clock.StatsMeaning` | course_work/code/core_module.c:433-471 | the statistics after any trace report the number, the earliest and the latest of the flagged rows |
| `Clock.StatsLengths` | course_work/code/core_module.c:439-466 | the statistics after any trace report the length 512 and the number of rows held, and zeros before the first period is closed |
| `Cursor.PassIsHistory` | course_work/code/core_module.c:395-431 | in every interleaving of packets and reads the cursor stays within the window and the i-th row of a pass is the row of the history whose number is i plus the rows evicted by then |
| `Cursor.NoGapIff` | course_work/code/core_module.c:225-232 | the rows of a pass come in the order of their time stamps, none twice, and form a stretch of the history without gaps if and only if no period beyond the 512th is closed between its first and its last read |
| `Cursor.GapSession` | course_work/code/core_module.c:225-232 | a session (512 dumps, a read, a dump, a read) whose pass skips a row |
| `Cursor.NoGapBeforeOverflow` | course_work/code/core_module.c:395-431 | before the window first overflows a pass is the history from its start, whatever dumps happen in between |
| `Detector.TestsInOrder` | course_work/code/core_module.c:150-222 | the chain of nine tests in its source order is the search for the first property over its limit |
| `TrafficModule.FirstOverLimit` | course_work/code/core_module.c:148-222 | the chain of comparisons returns that first property |
| `TrafficModule.CoreModule.constructor` | course_work/code/core_module.c:38-51 | empty tables |
| `TrafficModule.CoreModule.Averages` | course_work/code/core_module.c:126-146 | the nine averages over the rows before the last, in 32-bit arithmetic |
| `TrafficModule.CoreModule.Judge` | course_work/code/core_module.c:126-222 | the verdict on the last row against the rows before it |
| `TrafficModule.CoreModule.InspectLast` | course_work/code/core_module.c:109-223 | only the last row changes, as the detector's specification says, and only when there is a row before it |
| `TrafficModule.CoreModule.DropFirstRow` | course_work/code/core_module.c:226-232 | the in-place shift drops the oldest row of a full window and nothing else |
| `TrafficModule.CoreModule.SumTable` | course_work/code/core_module.c:244-252 | the totals and maxima of the first-layer table |
| `TrafficModule.CoreModule.DumpFirstLayerTable` | course_work/code/core_module.c:225-278 | the judged summary is pushed on the window and the first-layer table is emptied |
| `TrafficModule.CoreModule.StartPeriod` | course_work/code/core_module.c:282-286 | a dump happens only with 1 to 64 rows, so its divisions are safe; the state follows the specification |
| `TrafficModule.CoreModule.RecordPacket` | course_work/code/core_module.c:288-322 | the linear search with update or insertion follows the specification of the table |
| `TrafficModule.CoreModule.AddPacketInfo` | course_work/code/core_module.c:280-323 | the object represents the state specified for all calls so far, and the read cursor is left alone |
| `TrafficModule.CoreModule.ReadL2Data` | course_work/code/core_module.c:395-431 | one row and the next cursor, or nothing and a cursor reset to 0; the tables are left alone |
| `TrafficModule.CoreModule.ReadPass` | course_work/code/cli.c:83-87 | reading until nothing comes back returns the window from the cursor on, each row once and in order, and resets the cursor |
| `TrafficModule.CoreModule.ReadStats` | course_work/code/core_module.c:433-480 | the statistics of the current window |

## Left out

- Kernel plumbing of `core_module.c`: hook and device registration, `printk`, the refusal of a wrong `count`, and failures of `copy_to_user`, which is taken to succeed.
- `hide` and `unhide` of `core_module.c`: what they do is decided by the kernel's list code.
- `CoreModule.AddPacketInfo`: calls are sequential; the code has no lock, and concurrent calls are not modelled.
- The byte order of the IP length: the code takes `tot_len` as it is in the header, and the model uses only that it is a 16-bit number and that the SYN flag is read only from TCP packets.
- The verdict `FALL`, which exists as a value but is produced by no code.
- `Clock.StatsMeaning` and `Clock.StatsSpan`: they need one non-decreasing clock, which `ktime_get_ns` and `ktime_get_seconds` are taken to be.
- `Clock.WindowSpaced` and `Cursor.NoGapIff`: they assume the same clock; without it two rows can carry the same stamp, and `Cursor.PassIsHistory` states what remains.
- `RealTraffic.RealVerdictsIff`: does not model histories in which a period itself reached 2^32 packets or bytes; `Detector.SameVerdictsIff` covers those with rows of any numbers.
- `Traces.Realised`: traces of up to a billion periods of 11 seconds, so that the clock stays within 64 bits.
- `Spiral.Fill`: does not model the width of `int`, because n*n fits it for every size the arrays allow; the limit of 10 on the size is dropped. The four loops of `fill_one_circle` are four methods.
- `TriangleSwap.SwapUpperLowerTriangle`: its inner loop is the method `SwapRow`.
- `main` of the two matrix programs: reading and printing the matrix, and the checks of the input.
- The semaphore programs' shared memory and semaphore set creation and removal, `fork`, `wait`, error exits, random sleeps, and the kernel limit on semaphore values.
- `EventReadersWriters`: `wait_threads` (it waits on five handles of a three-element array), `close_handles`, sleeps and the printed lines.
- `EventReadersWriters.Completes`: mutual exclusion and exact increment counts are not claimed, because a wait leaves the manual-reset event signalled; `ExactCountIff`, `FinalValues` and `OverlapIff` state what holds instead.
- `ReadersWriters.NotStuck`: termination of all runs is not claimed, because readers can starve the writers; `TerminatesIff` and `StarvationIff` state when.
- `ProducerConsumer.Machine`, `ReadersWriters.Machine` and `EventReadersWriters.Machine` hold the process table as a sequence; each process runs its program one atomic step at a time instead of in its own thread.
- Sockets, pipes, signals, daemons, `/proc` printers, the trivial kernel modules, `sem_06/lab_05/myfs.c`, `sem_06/lab_08`, `product_odd` of `sem_05/lab_02/p_1.c`, the command-line printing and the web server: input and output, foreign code, or easy members.
