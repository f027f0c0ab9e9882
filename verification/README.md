# Verified models of the system-programming assignments

The repository holds six small engines whose correctness depends on every
interleaving or every input. This project models each of them in Dafny and
proves what they guarantee; where a promise does not hold, it proves exactly
when it does.

| files | what they model |
|---|---|
| `ring.dfy`, `buffer.dfy` | the bounded ring of the parallel copier (HW5), as a value and as an object over an array |
| `plan.dfy`, `traversal.dfy` | the manager's recursive walk: directories made, file pairs opened, paths built |
| `copier.dfy`, `copier_invariant.dfy`, `copier_steps.dfy`, `copier_safety.dfy`, `copier_liveness.dfy`, `copy_tree.dfy` | the running copier: main, manager and workers as a step system, its invariant, its safety, its termination, and the result for a source tree |
| `rw_lock.dfy`, `rw_lock_proofs.dfy`, `rw_lock_exits.dfy`, `rw_lock_calls.dfy` | the reader/writer lock of the file server (Midterm), with balanced calls and with second exits, and what each call is served with |
| `parking.dfy`, `parking_proofs.dfy` | the parking lot with its owner, valets and signal handler (HW3) |
| `client_queue.dfy`, `admission.dfy`, `admission_proofs.dfy`, `admission_outcome.dfy` | the growable client queue and the admission of clients (Midterm) |
| `line_edit.dfy`, `line_write.dfy` | the line commands writeT and readF (Midterm), and what writeT does to a line exactly |
| `paging.dfy`, `records.dfy`, `grade_sort.dfy` | listSome, listGrades, the grade records and the bubble sorts (HW1) |
| `counting.dfy`, `sequences.dfy`, `c_strings.dfy` | sums over threads, sequence facts and C strings, used by the others |

## How concurrency is modelled

A program with threads is a state, a set of labels, a predicate `Enabled` and a
function `Apply`; a run is any sequence of enabled labels, so the scheduler, the
kernel's choice of descriptors, the size of every read, the waiter chosen by a
signal and the moment a signal handler runs are all arbitrary. A stretch of code
that holds a mutex is one step. Waiting on a condition variable is a state that
only a signal, a broadcast or a spurious wake-up leaves, for a state that checks
its condition again. Semaphore operations, unlocked reads and system calls are
steps of their own. The numbers of workers, processes, handler activations and
the sizes of buffers and lots are parameters.

## Main results

- **Copier.** For every source tree, buffer size and number of workers: when the
  barrier opens the destination mirrors the source byte for byte and nothing else
  has changed, no descriptor is open and each file was closed once
  (`CopyTree.TreeIsMirrored`). Some thread can always step until main has joined
  everyone (`CopierLiveness.NoDeadlock`), a cost told from the plan bounds every
  run (`RunIsBounded`), and a run that cannot go on has finished
  (`CopyTree.TreeIsCopied`).
- **Reader/writer lock.** Writers exclude everybody for any number of processes.
  The lock can stall: readers and writers take the two semaphores in opposite
  orders. It is stalled if and only if a pair is crossed, can come back to rest if
  and only if no pair is about to cross, and never stalls under readers alone or
  writers alone. Every balanced read call reads exactly once and every write call writes
  exactly once, and a lock with no writer inside lets a reader in by its own steps,
  beside others that read. All this needs balanced calls; the path of readF that finds its
  line exits twice (Midterm/src/server.c:451 and Midterm/src/server.c:477). From
  every reachable state a step keeps exclusion in all that follows if and only if it
  is no second exit, or the lock is doomed anyway (`RwLockExits.ExclusionExactly`).
- **Parking lot.** The admission test reserves a real space for each car let in,
  and turns a car away if and only if the lot has let in as many as it has places.
  Until an end is signalled waiting cars are parked within five steps of their valet;
  a full lot ends the simulation.
  From any point at which the end flag is set, the three threads take at most
  eighteen further steps, however many signals arrive, and exit; eighteen is attained.
- **Queue and admission.** The growing ring is a FIFO at amortised constant cost.
  Everybody who asks is let in, queued or turned away, as often as they ask; turned away
  are exactly the clients unwilling to wait who found no place or a queue, in order.
  Clients willing to wait are served in order; the running children never exceed
  the limit; with a place and somebody waiting, five steps of the server take the
  first in the queue, with or without requests. Exits whose signals merge cost places
  for good, for every limit possibly all but one, but never the last.
- **Line commands.** writeT replaces line k, whatever the text, if and only if the
  lines before k fit its buffer, no other line has a NUL (`fputs` stops there), and
  nothing is left of line k behind its first piece, unless each further piece begins
  with a NUL (`LineWrite.WriteRightExactly`); readF then sends the line back. readF
  sends a line if and only if it is finished: a last line without a newline is passed
  over in silence, as is the number after the last line of a finished file. The bounds
  of its line buffer are kept exactly for the lines described by `LineEdit.ReadFits`.
- **Grade file.** Pages show the entries the manual promises and cover the file.
  Records come back exactly for names without a comma, and reading stays inside its
  array exactly for up to 100 of them. Each sort is stable and its
  result unique; its direction in dictionary order of character codes is exactly
  the reverse of its label. (For
  grades, where AA is the best, the label then fits the merit; for names it is wrong.)

## Model

| member | source | states |
|---|---|---|
| Ring.PutAppends | HW5/src/buffer.c:34-36 | storing at `in` and advancing it appends to the queue, wherever the ring has wrapped |
| Ring.TakeRemovesOldest | HW5/src/buffer.c:50-52 | reading at `out` and advancing it removes the oldest element only |
| BoundedBuffer.Buffer.constructor | HW5/src/buffer.c:5-21 | a buffer starts valid and empty, whatever its slots hold |
| BoundedBuffer.Buffer.Push | HW5/src/buffer.c:30-40 | waits exactly when full, changing nothing; otherwise appends, and pushed stays popped plus queue |
| BoundedBuffer.Buffer.Pop | HW5/src/buffer.c:42-56 | waits exactly when empty and not done; answers 0 exactly when empty and done, and then everything pushed was popped; otherwise gives the oldest item |
| BoundedBuffer.Buffer.SetDone | HW5/src/buffer.c:58-63 | only the flag changes |
| CopyPlan.CopyJobsExact | HW5/src/manager.c:31-65 | the jobs of a plan are its copies, each once, in order |
| Traversal.Manager.CopyDirectory | HW5/src/manager.c:15-68 | the loop and its recursion ask for exactly the actions of the recursive plan, dot entries skipped |
| Traversal.EntryIsAsked | HW5/src/manager.c:31-62 | every entry whose name is neither "." nor ".." is asked for: a file as one copy, a directory with all that is in it |
| Traversal.DotsAreSkipped | HW5/src/manager.c:32 | nothing is asked for exactly those two |
| Traversal.PlanFollowsWalk | HW5/src/manager.c:36-62 | the paths handed down the recursion are the joined relative paths of the places visited, the same place on both sides |
| Traversal.JoinInjective | HW5/src/manager.c:36-37 | joining slash-free names keeps different places apart |
| Traversal.WalkDistinct | HW5/src/manager.c:31-65 | no place of the tree is visited twice |
| Traversal.WalkSound | HW5/src/manager.c:31-65 | every visit is for a file or directory that looking up the tree finds there |
| Traversal.WalkComplete | HW5/src/manager.c:31-65 | every file and directory of the tree is visited |
| CopierSteps.InitEstablishes | HW5/src/210104004023_main.c:44-51 | the invariant holds when the barrier and the buffer have been initialised |
| CopierSteps.ShapeStep | HW5/src/210104004023_main.c:59-72 | threads are born once, in order, and joined only after they returned |
| CopierSteps.PhaseStep | HW5/src/worker.c:16-23 | done is set exactly after the walk; a worker that got 0 sees a drained buffer and never sleeps and retries |
| CopierSteps.HistoryStep | HW5/src/buffer.c:34-52 | at every step pushed is popped followed by the ring's contents, and pushes are the copies behind the manager |
| CopierSteps.HoldersStep | HW5/src/worker.c:13-34 | a worker's item was popped, and no two workers have the same job |
| CopierSteps.ContentsStep | HW5/src/worker.c:26-34 | what each holder of an item knows of its descriptors and of the bytes copied so far is kept by every step of every other thread |
| CopierSteps.FrameStep | HW5/src/manager.c:24-52 | only the plan's directories and destination files are created or written |
| CopierSteps.ConservedStep | HW5/src/manager.c:44-57 | the number of open descriptors is that of the manager's hand, the ring and the workers |
| CopierSteps.CloseIsFirst | HW5/src/worker.c:32-34 | a close is of the actor's own open file, not closed before |
| CopierSteps.ClosedOnceStep | HW5/src/worker.c:32-34 | no path is closed twice; a popped item held by nobody is completely copied and closed |
| CopierSteps.NoLostWakeupStep | HW5/src/buffer.c:30-63 | a waiting manager means a full ring; a waiting worker means not done and enough woken workers for the items queued |
| CopierSteps.BarrierStep | HW5/src/210104004023_main.c:44 | arrivals are counted right, and nobody passes before all parties have arrived |
| CopierSteps.StepKeepsInv | HW5/src/buffer.c:30-63 | every step of every thread keeps the whole invariant |
| CopierSteps.RunKeepsInv | HW5/src/buffer.c:30-63 | the invariant holds in every state of every run |
| CopierSafety.BarrierOpensOnMirror | HW5/src/manager.c:77-84 | whenever the barrier is open: mirror complete, ring empty, no worker in a copy, no descriptor open, every file closed once |
| CopierSafety.DestroyedAfterUse | HW5/src/210104004023_main.c:66-79 | when main destroys the buffer every thread has returned |
| CopierSafety.OpenIsHeldInRun | HW5/src/manager.c:44-57 | every open descriptor is held by the manager, by an item in the ring or by a worker that has yet to close it |
| CopierSafety.DescriptorBound | HW5/src/manager.c:44-62 | at every step the open descriptors are exactly those held, none counted twice, and make at most capacity + workers + 1 pairs |
| CopierSafety.DeliveredInOrder | HW5/src/buffer.c:34-52 | in every state delivery is in traversal order, without loss or duplicate, and nobody sleeps on a failed pop |
| CopierSafety.ItemsAreNamed | HW5/src/manager.c:60-62 | every item carries the name of the entry it was opened for |
| CopierSafety.ChunksFitInRun | HW5/src/worker.c:26-29 | no worker ever has more than 1024 bytes in hand |
| CopierSafety.AnyChunking | HW5/src/worker.c:26-29 | a read may deliver any number of bytes from 1 to 1024 that are left, and ends the copy exactly if none are |
| CopierSafety.DrainedForGood | HW5/src/buffer.c:46-49 | pop answers 0 only after every copy of the plan was popped, and the ring never changes again |
| CopierSafety.DoneAfterFailedPop | HW5/src/buffer.c:65-67 | the answer a worker gets after a failed pop is always yes, everything has been delivered, and the worker goes to the barrier |
| CopierLiveness.SomeThreadCanStep | HW5/src/buffer.c:30-63 | in a state satisfying the invariant some thread can step without a spurious wake-up, unless main has left |
| CopierLiveness.NoDeadlock | HW5/src/buffer.c:30-63 | every run can be continued until main has joined everyone |
| CopierLiveness.MeasureStep | HW5/src/worker.c:12-38 | every step but a spurious wake-up lowers a natural-number measure, re-checks and repeated waits included |
| CopierLiveness.RunIsBounded | HW5/src/worker.c:12-38 | the length of every run is bounded by a cost of the plan plus two for each spurious wake-up |
| CopierLiveness.MaximalRunFinishes | HW5/src/210104004023_main.c:66-79 | a run that cannot go on has joined every thread and mirrored the plan |
| CopyTree.JobIsAdmissible | HW5/src/manager.c:31-65 | every plan the walk makes of a well-formed tree has distinct, existing, non-colliding files |
| CopyTree.TreeIsMirrored | HW5/src/manager.c:15-87 | for every tree, buffer, worker count, interleaving and chunking: at the open barrier each file and directory of the tree is at its place, byte for byte, and nothing else changed |
| CopyTree.TreeIsCopied | HW5/src/manager.c:70-87 | every run is bounded, and one that cannot go on ends with the mirror and all threads joined |
| CopyTree.DirectoryIsThere | HW5/src/manager.c:24-52 | when a file is created its directory exists |
| RwLockProofs.StepKeepsInv | Midterm/src/sync.c:25-54 | ownership of both semaphores and the count stays accounted for at every single operation |
| RwLockProofs.ReachableInv | Midterm/src/sync.c:25-54 | both semaphores stay in {0, 1} and reader_count is the number of readers counted in |
| RwLockProofs.MutualExclusion | Midterm/src/sync.c:45-54 | a writer inside excludes every other writer and every reader |
| RwLockProofs.StallExactly | Midterm/src/sync.c:25-49 | nobody inside a call can move if and only if a writer holding writer_mutex waits for reader_mutex and the reader holding reader_mutex waits for writer_mutex; then nobody reads or writes |
| RwLockProofs.OthersOutside | Midterm/src/sync.c:25-49 | with such a pair all others are outside or at their first semaphore |
| RwLockProofs.MovesUnlessCrossed | Midterm/src/sync.c:25-49 | without such a pair somebody inside a call can move |
| RwLockProofs.CrossedForever | Midterm/src/sync.c:30-48 | such a pair never comes apart and nobody ever enters again |
| RwLockProofs.StallHappens | Midterm/src/sync.c:26-48 | a run of balanced calls that reaches the stall |
| RwLockCalls.CallsServed | Midterm/src/sync.c:25-54 | along every balanced path, reads begun are the reads that took place and the one still to take place, and so for writes |
| RwLockCalls.ServedOnce | Midterm/src/sync.c:25-54 | between two idle moments a process has read exactly as often as it called for reading, and written as often as it called for writing |
| RwLockCalls.ReaderGetsIn | Midterm/src/sync.c:25-33 | from every reachable state with reader_mutex free and no writer inside, a reader gets in by at most six steps of its own, beside others that read |
| RwLockCalls.WriterGetsIn | Midterm/src/sync.c:45-49 | with both semaphores free a writer gets in by three steps of its own |
| RwLockCalls.ReadersKeepWritersOut | Midterm/src/sync.c:25-49 | as long as somebody reads, writer_mutex is taken and by no writer |
| RwLockExits.CallsEndOrCross | Midterm/src/sync.c:25-54 | without new calls the steps are bounded, and end at rest or with a crossed pair |
| RwLockExits.OneKindNeverStalls | Midterm/src/sync.c:25-54 | readers alone, or writers alone, never stall |
| RwLockExits.RestExactly | Midterm/src/sync.c:25-54 | a reachable state can come back to rest if and only if no waiting writer faces a reader on its way to writer_mutex |
| RwLockExits.HopelessForever | Midterm/src/sync.c:25-54 | otherwise nobody ever enters again, whatever is called |
| RwLockExits.DoubleExitBreaksExclusion | Midterm/src/server.c:451-477 | for any number of processes, from any reachable state that is not doomed: after a second exit of p a balanced continuation has p reading while any other q writes |
| RwLockExits.ExclusionExactly | Midterm/src/server.c:451-477 | with two or more processes, a step from a reachable state keeps exclusion in all balanced continuations if and only if it is not a second exit or the lock is doomed |
| ParkingProofs.AdmitKeeps | HW3/src/main.c:70-85 | admission keeps a lane's reservation and admits nobody to a full lane |
| ParkingProofs.AdmitExactly | HW3/src/main.c:73-84 | a lane lets a car in exactly as long as fewer have been let in than fit |
| ParkingProofs.ArrivalExactly | HW3/src/main.c:70-85 | in every run an arriving car is turned away if and only if as many of its kind were let in as there are places; otherwise its lane, and only that, takes it |
| ParkingProofs.ValetKeeps | HW3/src/main.c:104-121 | every valet step keeps the lane's accounts |
| ParkingProofs.StepKeepsInv | HW3/src/main.c:34-148 | every step of owner, valets and handlers keeps the lot's invariant |
| ParkingProofs.ReservationHolds | HW3/src/main.c:70-122 | for any sizes no count is negative, waiting cars never exceed the real spaces left, and no more cars are let in than fit; the in-charge semaphore never blocks |
| ParkingProofs.TokensAreCars | HW3/src/main.c:74-121 | until an end is signalled, semaphore plus valet's hands is the temporary spaces taken |
| ParkingProofs.FullMeansAllParked | HW3/src/main.c:88-97 | when the two unlocked reads saw zero, every car let in is parked and the lot is full |
| ParkingProofs.QuietEndIsFull | HW3/src/main.c:88-97 | without a signal the simulation ends only with a full lot |
| ParkingProofs.WaitingCarsGetParked | HW3/src/main.c:102-122 | until an end is signalled, a valet for whom a car waits is never held up and puts one away within five of its steps |
| ParkingProofs.FullLotEnds | HW3/src/main.c:66-97 | with all real spaces taken, every step of the owner brings it nearer to ending the simulation |
| ParkingProofs.HandlerPostsAll | HW3/src/main.c:34-43 | an undisturbed handler sets the flag and posts each of the four semaphores once |
| ParkingProofs.QuietCharge | HW3/src/main.c:104-116 | without a signal each in-charge semaphore is a mutex, and no wait fails |
| ParkingProofs.WaitsCanFail | HW3/src/main.c:104-105 | after a handler has returned a valet's wait, and nothing else of it, can fail |
| ParkingProofs.FailedWaitKeeps | HW3/src/main.c:104-105 | a semaphore wait interrupted by the handler, its result ignored, keeps the lane's accounts and brings the valet nearer to its end |
| ParkingProofs.ShutdownProgresses | HW3/src/main.c:34-43 | once the flag is set, until all threads have exited and all handlers returned, some step of theirs is possible |
| ParkingProofs.HeldUpOnlyByPost | HW3/src/main.c:34-43 | then a valet is held up only while the owner or a handler, never held up themselves, has yet to post its semaphore |
| ParkingProofs.ShutdownTerminates | HW3/src/main.c:88-148 | from any state with the flag set, with any further signals: the threads' own steps are bounded, all steps are bounded but for six a signal, and a path that only a signal can extend has all three threads gone |
| ParkingProofs.ShutdownBound | HW3/src/main.c:34-148 | the bounds are at most six steps for each thread and five for each handler activation |
| ParkingProofs.EighteenSteps | HW3/src/main.c:34-148 | in every run the three threads take at most eighteen steps after the flag is set |
| ParkingProofs.EighteenHappen | HW3/src/main.c:34-148 | a run in which they take all eighteen |
| ClientQueue.ResizeKeepsContents | Midterm/src/structs.c:27-50 | growing keeps the queue, also when it wraps around the end |
| ClientQueue.EnqueueAppends | Midterm/src/structs.c:52-63 | an enqueue appends, growing a full array first |
| ClientQueue.DequeueRemovesOldest | Midterm/src/structs.c:14-25 | a dequeue gives the oldest client, or NULL exactly on the empty queue |
| ClientQueue.RefinesFifo | Midterm/src/structs.c:14-74 | for any sequence of operations from capacity 0: what went in is what came out followed by the contents, and the indices stay consistent |
| ClientQueue.NullMeansEmpty | Midterm/src/structs.c:17-18 | a dequeue comes back with NULL exactly when everything put in has come out |
| ClientQueue.ResizesAreCheap | Midterm/src/structs.c:27-63 | capacity is a power of two, the resizes copied capacity - 1 pointers in all, fewer than twice the enqueues |
| ClientQueue.Queue.constructor | Midterm/src/structs.c:65-74 | the empty queue of capacity 0 |
| ClientQueue.Queue.Dequeue | Midterm/src/structs.c:14-25 | the object follows the specification and removes the oldest client |
| ClientQueue.Queue.ResizeQueue | Midterm/src/structs.c:27-50 | the copy loop moves the elements to the front of a larger array |
| ClientQueue.Queue.Enqueue | Midterm/src/structs.c:52-63 | the object follows the specification and appends |
| AdmissionProofs.StepKeepsInv | Midterm/src/server.c:1237-1295 | every statement, exit and signal keeps order and balance |
| AdmissionProofs.FirstComeFirstServed | Midterm/src/server.c:1237-1295 | clients willing to wait that arrived are those admitted followed by those queued |
| AdmissionProofs.TryConnectYields | Midterm/src/server.c:1253-1291 | other clients are never queued and are let in only when nobody waits |
| AdmissionOutcome.NobodyForgotten | Midterm/src/server.c:1249-1291 | in every state the clients that asked are those let in, queued, in the server's hand or turned away, with multiplicity |
| AdmissionOutcome.RejectedExactly | Midterm/src/server.c:1253-1291 | turned away are exactly the clients that will not wait and at their decision found no place or a queue, each once, in the order of decisions |
| AdmissionOutcome.OnlyUnwillingRejected | Midterm/src/server.c:1271-1291 | nobody willing to wait is turned away |
| AdmissionOutcome.RejectedInOrderOfArrival | Midterm/src/server.c:1249-1291 | the clients turned away are so in the order in which they asked |
| AdmissionOutcome.DecisionExactly | Midterm/src/server.c:1253-1276 | in every run, whoever asked last is let in at once if there is a place and nobody waits, and put off otherwise |
| AdmissionProofs.LimitHolds | Midterm/src/server.c:26-29 | running children <= num_clients <= limit, and the difference is pending, merged or being forked |
| AdmissionProofs.LostForGood | Midterm/src/server.c:26-29 | a place lost to a merged signal never comes back |
| AdmissionProofs.OnePlaceRemains | Midterm/src/server.c:1239-1247 | with no child running and no signal on its way, whoever waits has a place |
| AdmissionProofs.PlaceGetsLost | Midterm/src/server.c:26-29 | for every positive limit a run in which the exits of all children merge and all places but one are lost |
| AdmissionProofs.UntilTaken | Midterm/src/server.c:1237-1295 | with a place and a queue, every step of the server brings it nearer to taking the first in the queue, and nobody else gets in before |
| AdmissionProofs.FirstWaiterIsTaken | Midterm/src/server.c:1223-1249 | five steps of the server take the client that has waited longest, with or without requests, whatever exits and signals come between |
| AdmissionProofs.ServerCanStep | Midterm/src/server.c:1223-1249 | the server, which polls, always has a step of its own |
| LineEdit.CopyReplacing | Midterm/src/server.c:670-684 | the first copy loop writes every piece it reads but the numbered one, and finds it exactly if there are that many pieces |
| LineEdit.CopyBack | Midterm/src/server.c:731-733 | the second copy loop is the identity on text |
| LineEdit.WriteLine | Midterm/src/server.c:670-736 | both loops together compute the edit of the specification |
| LineEdit.ReadLine | Midterm/src/server.c:430-465 | the character loop stays in its line buffer if and only if the lines it reads fit, and then sends the numbered finished line and reports a number from two past the last newline on |
| LineEdit.PiecesAreLinesExactly | Midterm/src/server.c:673-675 | the loop counts lines right if and only if every line fits the buffer |
| LineWrite.PiecesLagBehind | Midterm/src/server.c:670-675 | the k-th piece never ends behind the k-th line, and ends with it if and only if the first k lines fit |
| LineWrite.WriteReplacesLine | Midterm/src/server.c:670-736 | under the condition of WriteRightExactly: line k is replaced, all others and their number stay; a number that names no line changes nothing |
| LineWrite.WriteRightExactly | Midterm/src/server.c:670-736 | for every file: writeT does so for every text if and only if the lines before k fit, no other line has a NUL and of line k nothing is left that would be written back; for a number that names no line, if there are fewer pieces than k |
| LineWrite.FitRightExactly | Midterm/src/server.c:670-736 | if the first k lines fit, the edit with any one text is right if and only if no piece but the k-th has a NUL |
| LineWrite.FitIsRight | Midterm/src/server.c:670-736 | in a file without NULs it is enough that the first k lines fit |
| LineWrite.NulLosesText | Midterm/src/server.c:680 | a file of two lines that fit where editing the second drops the end and the newline of the first |
| LineWrite.WriteThenRead | Midterm/src/server.c:438-462 | reading line k after such a write gives the text and a newline, inside the line buffer if and only if the text is shorter than it; any other line reads as before |
| LineEdit.SilentExactly | Midterm/src/server.c:464 | in every file readF is silent for exactly one number, the one after the last newline |
| LineEdit.SentExactly | Midterm/src/server.c:440-462 | a line of the file is sent if and only if it is not an unfinished last one; that one is passed over in silence |
| LineEdit.LastLineUnsent | Midterm/src/server.c:440-464 | a file of two lines whose second readF neither sends nor reports |
| Paging.ShowBlock | HW1/src/main.c:746-753 | one block of a read is shown as the specification says, stopping inside it at the page's end |
| Paging.ShowRange | HW1/src/main.c:745-754 | the result does not depend on how the reads are chunked |
| Paging.ListSome | HW1/src/main.c:745-754 | listSome computes the page |
| Paging.ListGrades | HW1/src/main.c:682-689 | listGrades is listSome with 5 and 1 |
| Paging.PageShowsEntries | HW1/src/main.c:90 | page p of n shows the lines n(p-1)+1 to np, as the manual promises, after one leading newline exactly from page 2 on and if the file has n(p-1) newlines |
| Paging.PagesCoverFile | HW1/src/main.c:745-754 | the pages without their leading newlines are the file |
| Paging.NoSuchPage | HW1/src/main.c:745-754 | for numbers that are not positive nothing is shown |
| Records.ReadStudents | HW1/src/main.c:487-508 | the character loop with its token calls stays in its array if and only if no first token comes after 100 students, and then computes the parse of the specification |
| Records.TwoFields | HW1/src/main.c:491-499 | a line with two fields, however many commas stand around them, gives a student with the first 29 characters of the one and the first 3 of the other |
| Records.FewerFields | HW1/src/main.c:491-499 | a line with fewer gives none |
| Records.LineOf34 | HW1/src/main.c:487-504 | of a line longer than 34 characters the 35th is dropped and a new line begins |
| Records.LastLineUnread | HW1/src/main.c:487-506 | a last line without newline is not read |
| Records.AtHundred | HW1/src/main.c:491-500 | with 100 students read, a line with so much as a name leaves the array, any other does not |
| Records.FitsExactly | HW1/src/main.c:322-325 | the record fits its buffer if and only if name and grade have at most 31 characters together |
| Records.LineComesApart | HW1/src/main.c:322-325 | an accepted record fits its buffer and parses to its name and its space-prefixed grade |
| Records.RoundTripExactly | HW1/src/main.c:491-498 | a record comes back if and only if its name has no comma |
| Records.FileRoundTrip | HW1/src/main.c:322-508 | a file of accepted records parses to the same students in order if and only if no name has a comma |
| Records.ReadableExactly | HW1/src/main.c:445-500 | reading a file of such records stays in the array if and only if there are at most 100 |
| GradeSort.ExchangesOrder | HW1/src/main.c:572-605 | each comparison orders the students by its key |
| GradeSort.BubbleSort | HW1/src/main.c:569-612 | in place: sorted in the direction of the comparison, students with equal keys in their old order, the rest of the array untouched |
| GradeSort.StableIsPermutation | HW1/src/main.c:569-612 | the result has the same students |
| GradeSort.StableSortUnique | HW1/src/main.c:569-612 | the result is determined by the input |
| GradeSort.SortAll | HW1/src/main.c:487-544 | reading and sorting together, whenever reading stays in its array |
| GradeSort.SortOfAddedStudents | HW1/src/main.c:322-544 | for a file of added students there is one possible answer, a permutation of what was added |
| GradeSort.StrcmpExactly | HW1/src/main.c:572-605 | the comparison is negative exactly if its first argument is a proper prefix of the second or has the smaller character at the first difference |
| GradeSort.ExchangesExactly | HW1/src/main.c:572-605 | the four comparisons, by field and that order |
| GradeSort.LabelIsReversed | HW1/src/main.c:519-612 | what each of the four sorts leaves, if and only if: names descending, names ascending, grades descending, grades ascending in dictionary order, each the reverse of its label |
| GradeSort.StableByField | HW1/src/main.c:569-612 | students with the same name, or the same grade, keep their order |
| GradeSort.BobBeforeAnn | HW1/src/main.c:580-590 | sorted "ascending" by name, Bob is shown before Ann |
| GradeSort.LabelRightExactly | HW1/src/main.c:519-535 | a result agrees with its label if and only if all its keys are equal |

## Assumptions

- System calls succeed, writes are complete, memory is available, and buffers are
  used as POSIX describes; capacities and worker counts given to the copier are positive.
- Source and destination trees of the copier do not share files, and the source
  does not change while it is copied.
- An update of `num_clients` is not torn by its signal handler, and children are
  not stopped, only terminated.
- A descriptor that is open is never handed out again; closed numbers may be.

## Left out

- Records.LineComesApart: covers records that fit the 35-character buffer; what a longer one writes depends on memory after the buffer.
- What a store beyond the end of a buffer does: the models of readF and sortAll end there and say so.
- AdmissionProofs.LimitHolds: takes the limit as a natural number; a negative command-line argument admits nobody.
- The server's `client_fd != -1` test (Midterm/src/server.c:1252) reads a variable that is not initialised; it is taken to hold.
- The copier's signal handler (HW5/src/210104004023_main.c:15-20), which destroys the buffer and exits: every interrupted copy is just cut short.
- HW4 and HW2: the same ring without the barrier, and FIFO plumbing.
- The table of files by name (Midterm/src/sync.c:56-110): it is not protected by any lock.
- Atomicity of a whole writeT: it reads under the reader side and writes later under the writer side, so concurrent edits can be lost.
- Append mode of writeT, whole-file mode of readF, and the other server commands: they pass data through.
- `queue_destructor` (Midterm/src/structs.c:76-89): it looks at slots that a resize leaves uninitialised.
- Timing, printing, logging, prompts, error exits and path truncation.
